/**
 * The graph canvas: the entries on display, and the display list rebuilt from them — a grid of
 * decade lines, year labels and two bounding lines, then, for each entry, one label per decade and
 * one coloured segment between neighbouring decades.
 */
module NameSurferGraph {
  import opened Wrappers
  import opened JavaText
  import opened NameSurferEntry

  /** The four colours the series cycle through. */
  datatype Color = Red | Blue | Magenta | Black

  /**
   * What the canvas shows: a line from (x0, y0) to (x1, y1), drawn in `color` or, when None, in the
   * default colour; or a text label whose baseline starts at (x, y).
   */
  datatype Primitive =
    | Line(x0: real, y0: real, x1: real, y1: real, color: Option<Color>)
    | Label(text: string, x: real, y: real)

  /**
   * The constants of the display: NDECADES, MAX_RANK and GRAPH_MARGIN_SIZE, and the height of a
   * year label, which depends on the font.
   */
  datatype Config = Config(decades: nat, maxRank: nat, margin: nat, yearHeight: real) {
    /** The divisions the layout performs are by non-zero constants. */
    predicate Valid() {
      decades >= 1 && maxRank >= 1
    }
  }

  /** The first decade of the data. */
  const START_YEAR: int := 1900

  // ---------------------------------------------------------------------------------------------
  // Interleaved rounds

  function Min(a: int, b: int): int {
    if a < b then a else b
  }

  /**
   * What a loop has added after rounds 0 .. k - 1 when round r adds first[r], if there is one, and
   * then second[r], if there is one.
   */
  function Weave<T>(first: seq<T>, second: seq<T>, k: nat): seq<T> {
    if k == 0 then []
    else
      Weave(first, second, k - 1)
      + (if k - 1 < |first| then [first[k - 1]] else [])
      + (if k - 1 < |second| then [second[k - 1]] else [])
  }

  /** The first m parts, one after the other. */
  function Concat<T>(parts: seq<seq<T>>, m: nat): seq<T>
    requires m <= |parts|
  {
    if m == 0 then [] else Concat(parts, m - 1) + parts[m - 1]
  }

  /** An element of a prefix stays in place when more is appended. */
  lemma PrefixAt<T>(a: seq<T>, b: seq<T>, n: nat)
    requires n < |a|
    ensures (a + b)[n] == a[n]
  {
  }

  lemma {:induction false} WeaveLength<T>(first: seq<T>, second: seq<T>, k: nat)
    ensures |Weave(first, second, k)| == Min(k, |first|) + Min(k, |second|)
    decreases k
  {
    if k > 0 {
      WeaveLength(first, second, k - 1);
    }
  }

  /** A round to which both sequences contribute puts first[r] at 2r and second[r] at 2r + 1, where later rounds leave them. */
  lemma {:induction false} WeaveAt<T>(first: seq<T>, second: seq<T>, k: nat, r: nat)
    requires r < k && r < |first| && r < |second|
    ensures |Weave(first, second, k)| >= 2 * r + 2
    ensures Weave(first, second, k)[2 * r] == first[r] && Weave(first, second, k)[2 * r + 1] == second[r]
    decreases k
  {
    var w := Weave(first, second, k - 1);
    var o1 := if k - 1 < |first| then [first[k - 1]] else [];
    var o2 := if k - 1 < |second| then [second[k - 1]] else [];
    WeaveLength(first, second, k - 1);
    WeaveLength(first, second, k);
    if r == k - 1 {
      PrefixAt(w + o1, o2, 2 * r);
    } else {
      WeaveAt(first, second, k - 1, r);
      PrefixAt(w, o1, 2 * r);
      PrefixAt(w, o1, 2 * r + 1);
      PrefixAt(w + o1, o2, 2 * r);
      PrefixAt(w + o1, o2, 2 * r + 1);
    }
  }

  /** When one sequence is one shorter, the last of k rounds adds only the longer one's last element, at 2k - 2. */
  lemma WeaveLast<T>(first: seq<T>, second: seq<T>, k: nat)
    requires k >= 1 && |first| + |second| == 2 * k - 1 && k - 1 <= |first| && k - 1 <= |second|
    ensures |Weave(first, second, k)| == 2 * k - 1
    ensures Weave(first, second, k)[2 * k - 2] == if |first| == k then first[k - 1] else second[k - 1]
  {
    var w := Weave(first, second, k - 1);
    WeaveLength(first, second, k - 1);
    WeaveLength(first, second, k);
    if |first| == k {
      assert Weave(first, second, k) == (w + [first[k - 1]]) + [];
      assert (w + [first[k - 1]]) + [] == w + [first[k - 1]];
    } else {
      assert Weave(first, second, k) == (w + []) + [second[k - 1]];
      assert w + [] == w;
    }
  }

  // ---------------------------------------------------------------------------------------------
  // Layout arithmetic

  /** The horizontal distance between decades: the width divided by the number of decades, rounded down. */
  function LineInterval(cfg: Config, width: nat): nat
    requires cfg.Valid()
  {
    width / cfg.decades
  }

  /** The height of one rank step: the room between the margins divided by MAX_RANK. */
  function HeightRatio(cfg: Config, height: nat): real
    requires cfg.Valid()
  {
    (height - 2 * cfg.margin) as real / cfg.maxRank as real
  }

  /** isZero(int): an unranked decade (rank 0) is drawn as rank MAX_RANK. */
  function IsZeroRank(rank: int, maxRank: nat): int
  {
    if rank == 0 then maxRank else rank
  }

  /** isZero(String): the score text "0" is shown as "*". */
  function IsZeroScore(score: string): string
  {
    if score == "0" then "*" else score
  }

  /** The y coordinate of a rank: below the top margin by `rank` rank steps. */
  function RankY(cfg: Config, height: nat, rank: int): real
    requires cfg.Valid()
  {
    rank as real * HeightRatio(cfg, height) + cfg.margin as real
  }

  /** chooseColor(i): the colour of series i, cycling with period four; none for a negative i. */
  function ChooseColor(i: int): (r: Option<Color>)
    ensures r.Some? <==> i >= 0
  {
    var k := if i > 3 then i % 4 else i;
    if k == 0 then Some(Red)
    else if k == 1 then Some(Blue)
    else if k == 2 then Some(Magenta)
    else if k == 3 then Some(Black)
    else None
  }

  /** drawLine: the segment of series i from decade j to decade j + 1. */
  function DrawLine(lineInterval: int, firstPoint: int, secondPoint: int, heightRatio: real, margin: nat, i: int, j: int): Primitive
  {
    Line((lineInterval * j) as real, firstPoint as real * heightRatio + margin as real,
         (lineInterval * (j + 1)) as real, secondPoint as real * heightRatio + margin as real,
         ChooseColor(i))
  }

  /** markScore: the label " name score" of decade j, placed at the decade's point of the series. */
  function MarkScore(entry: Entry, score: string, firstPoint: int, lineInterval: int, heightRatio: real, margin: nat, j: int): Primitive
  {
    Label(" " + entry.GetName() + " " + score, (lineInterval * j) as real, firstPoint as real * heightRatio + margin as real)
  }

  // ---------------------------------------------------------------------------------------------
  // The grid

  /** The vertical line of decade boundary i, from the top of the canvas to the bottom. */
  function DecadeLine(cfg: Config, width: nat, height: nat, i: int): Primitive
    requires cfg.Valid()
  {
    Line((LineInterval(cfg, width) * i) as real, 0.0, (LineInterval(cfg, width) * i) as real, height as real, None)
  }

  /** The label of decade k: its year, at the left edge of the decade, just above the bottom margin. */
  function YearLabel(cfg: Config, width: nat, height: nat, k: int): Primitive
    requires cfg.Valid()
  {
    Label(IntToString(START_YEAR + k * 10), (LineInterval(cfg, width) * k) as real,
          height as real - (cfg.margin as real - cfg.yearHeight))
  }

  /** The two horizontal lines at the margins, across the whole width. */
  function UpperLine(cfg: Config, width: nat): Primitive {
    Line(0.0, cfg.margin as real, width as real, cfg.margin as real, None)
  }

  function LowerLine(cfg: Config, width: nat, height: nat): Primitive {
    Line(0.0, (height - cfg.margin) as real, width as real, (height - cfg.margin) as real, None)
  }

  /** The vertical lines of decade boundaries 1 .. NDECADES - 1, left to right. */
  function DecadeLines(cfg: Config, width: nat, height: nat): seq<Primitive>
    requires cfg.Valid()
  {
    seq(cfg.decades - 1, r => DecadeLine(cfg, width, height, r + 1))
  }

  /** The labels of decades 0 .. NDECADES - 1, left to right. */
  function YearLabels(cfg: Config, width: nat, height: nat): seq<Primitive>
    requires cfg.Valid()
  {
    seq(cfg.decades, r => YearLabel(cfg, width, height, r))
  }

  /**
   * What makeGrid's loop has added after rounds 1 .. i: round r + 1 adds the line of boundary
   * r + 1 (but not after the last decade), then the label of decade r.
   */
  function GridUpTo(cfg: Config, width: nat, height: nat, i: nat): seq<Primitive>
    requires cfg.Valid()
  {
    Weave(DecadeLines(cfg, width, height), YearLabels(cfg, width, height), i)
  }

  /** Everything makeGrid adds. */
  function Grid(cfg: Config, width: nat, height: nat): seq<Primitive>
    requires cfg.Valid()
  {
    GridUpTo(cfg, width, height, cfg.decades) + [UpperLine(cfg, width), LowerLine(cfg, width, height)]
  }

  /** The line makeGrid builds in round i is DecadeLine's. */
  lemma DecadeLineOf(cfg: Config, width: nat, height: nat, i: int, lineInterval: int, lowerBound: int, decade: Primitive)
    requires cfg.Valid() && lineInterval == width / cfg.decades && lowerBound == height
    requires decade == Line((lineInterval * i) as real, 0.0, (lineInterval * i) as real, lowerBound as real, None)
    ensures decade == DecadeLine(cfg, width, height, i)
  {
  }

  /** The label makeGrid builds in round i is YearLabel's for decade i - 1. */
  lemma YearLabelOf(cfg: Config, width: nat, height: nat, i: int, lineInterval: int, lowerBound: int, thisYear: int, year: Primitive)
    requires cfg.Valid() && lineInterval == width / cfg.decades && lowerBound == height
    requires thisYear == START_YEAR + (i - 1) * 10
    requires year == Label(IntToString(thisYear), (lineInterval * (i - 1)) as real, lowerBound as real - (cfg.margin as real - cfg.yearHeight))
    ensures year == YearLabel(cfg, width, height, i - 1)
  {
  }

  /** One round of makeGrid's loop extends what it has added by round i's primitives. */
  lemma GridRound(cfg: Config, width: nat, height: nat, i: nat, base: seq<Primitive>, before: seq<Primitive>,
                  middle: seq<Primitive>, after: seq<Primitive>)
    requires cfg.Valid() && 1 <= i <= cfg.decades
    requires before == base + GridUpTo(cfg, width, height, i - 1)
    requires middle == before + (if i < cfg.decades then [DecadeLine(cfg, width, height, i)] else [])
    requires after == middle + [YearLabel(cfg, width, height, i - 1)]
    ensures after == base + GridUpTo(cfg, width, height, i)
  {
    var g, x := GridUpTo(cfg, width, height, i - 1), if i < cfg.decades then [DecadeLine(cfg, width, height, i)] else [];
    if i < cfg.decades {
      assert DecadeLines(cfg, width, height)[i - 1] == DecadeLine(cfg, width, height, i);
    }
    assert YearLabels(cfg, width, height)[i - 1] == YearLabel(cfg, width, height, i - 1);
    assert GridUpTo(cfg, width, height, i) == g + x + [YearLabel(cfg, width, height, i - 1)];
    AppendAssoc(base, g, x);
    AppendAssoc(base, g + x, [YearLabel(cfg, width, height, i - 1)]);
  }

  /** The two margin lines close the grid. */
  lemma GridClose(cfg: Config, width: nat, height: nat, base: seq<Primitive>, rounds: seq<Primitive>,
                  middle: seq<Primitive>, after: seq<Primitive>)
    requires cfg.Valid()
    requires rounds == base + GridUpTo(cfg, width, height, cfg.decades)
    requires middle == rounds + [UpperLine(cfg, width)]
    requires after == middle + [LowerLine(cfg, width, height)]
    ensures after == base + Grid(cfg, width, height)
  {
    var g, u, l := GridUpTo(cfg, width, height, cfg.decades), UpperLine(cfg, width), LowerLine(cfg, width, height);
    AppendAssoc(base, g, [u]);
    AppendAssoc(base, g + [u], [l]);
    AppendAssoc(g, [u], [l]);
  }

  // ---------------------------------------------------------------------------------------------
  // The graphs

  /** The text shown for a rank: the numeral, or "*" for an unranked decade. */
  function ScoreText(rank: int): string {
    IsZeroScore(IntToString(rank))
  }

  /** The label of decade j of `entry`. */
  function Mark(cfg: Config, width: nat, height: nat, entry: Entry, j: nat): Primitive
    requires cfg.Valid() && j < |entry.rank|
  {
    MarkScore(entry, ScoreText(entry.rank[j]), IsZeroRank(entry.rank[j], cfg.maxRank),
              LineInterval(cfg, width), HeightRatio(cfg, height), cfg.margin, j)
  }

  /** The segment of series i from decade j to decade j + 1 of `entry`. */
  function Segment(cfg: Config, width: nat, height: nat, entry: Entry, i: nat, j: nat): Primitive
    requires cfg.Valid() && j + 1 < |entry.rank|
  {
    DrawLine(LineInterval(cfg, width), IsZeroRank(entry.rank[j], cfg.maxRank), IsZeroRank(entry.rank[j + 1], cfg.maxRank),
             HeightRatio(cfg, height), cfg.margin, i, j)
  }

  /** The labels of decades 0 .. NDECADES - 1 of `entry`. */
  function Marks(cfg: Config, width: nat, height: nat, entry: Entry): seq<Primitive>
    requires cfg.Valid()
  {
    seq(|entry.rank|, j requires 0 <= j < |entry.rank| => Mark(cfg, width, height, entry, j))
  }

  /** The segments of series i between neighbouring decades of `entry`. */
  function Segments(cfg: Config, width: nat, height: nat, entry: Entry, i: nat): seq<Primitive>
    requires cfg.Valid() && |entry.rank| >= 1
  {
    seq(|entry.rank| - 1, j requires 0 <= j < |entry.rank| - 1 => Segment(cfg, width, height, entry, i, j))
  }

  /**
   * What drawGraphs's inner loop has added for series i after decades 0 .. k - 1: decade j adds
   * its label, then, before the last decade, its segment.
   */
  function SeriesUpTo(cfg: Config, width: nat, height: nat, entry: Entry, i: nat, k: nat): seq<Primitive>
    requires cfg.Valid() && k <= cfg.decades == |entry.rank|
  {
    Weave(Marks(cfg, width, height, entry), Segments(cfg, width, height, entry, i), k)
  }

  /** Series i: everything drawn for one entry. */
  function Series(cfg: Config, width: nat, height: nat, entry: Entry, i: nat): seq<Primitive>
    requires cfg.Valid() && cfg.decades == |entry.rank|
  {
    SeriesUpTo(cfg, width, height, entry, i, cfg.decades)
  }

  /** Every entry has a rank for each decade. */
  predicate Fits(cfg: Config, entries: seq<Entry>) {
    forall k :: 0 <= k < |entries| ==> |entries[k].rank| == cfg.decades
  }

  /** The series of all entries, in order. */
  function AllSeries(cfg: Config, width: nat, height: nat, entries: seq<Entry>): seq<seq<Primitive>>
    requires cfg.Valid() && Fits(cfg, entries)
  {
    seq(|entries|, k requires 0 <= k < |entries| => Series(cfg, width, height, entries[k], k))
  }

  /** What drawGraphs's outer loop has added after series 0 .. m - 1. */
  function GraphsUpTo(cfg: Config, width: nat, height: nat, entries: seq<Entry>, m: nat): seq<Primitive>
    requires cfg.Valid() && Fits(cfg, entries) && m <= |entries|
  {
    Concat(AllSeries(cfg, width, height, entries), m)
  }

  /** Everything drawGraphs adds. */
  function Graphs(cfg: Config, width: nat, height: nat, entries: seq<Entry>): seq<Primitive>
    requires cfg.Valid() && Fits(cfg, entries)
  {
    GraphsUpTo(cfg, width, height, entries, |entries|)
  }

  /** The canvas after update(): the grid, then the graphs when there are entries. */
  function Display(cfg: Config, width: nat, height: nat, entries: seq<Entry>): seq<Primitive>
    requires cfg.Valid() && Fits(cfg, entries)
  {
    Grid(cfg, width, height) + (if entries == [] then [] else Graphs(cfg, width, height, entries))
  }

  /** The label drawGraphs builds from the values it computes for decade j is Mark's. */
  lemma MarkOf(cfg: Config, width: nat, height: nat, entry: Entry, j: nat,
               score: string, firstPoint: int, lineInterval: int, heightRatio: real)
    requires cfg.Valid() && j < |entry.rank|
    requires score == IsZeroScore(IntToString(entry.rank[j])) && firstPoint == IsZeroRank(entry.rank[j], cfg.maxRank)
    requires lineInterval == width / cfg.decades && heightRatio == (height - 2 * cfg.margin) as real / cfg.maxRank as real
    ensures MarkScore(entry, score, firstPoint, lineInterval, heightRatio, cfg.margin, j) == Mark(cfg, width, height, entry, j)
  {
  }

  /** The segment drawGraphs builds from the values it computes for decade j is Segment's. */
  lemma SegmentOf(cfg: Config, width: nat, height: nat, entry: Entry, i: nat, j: nat,
                  firstPoint: int, secondPoint: int, lineInterval: int, heightRatio: real)
    requires cfg.Valid() && j + 1 < |entry.rank|
    requires firstPoint == IsZeroRank(entry.rank[j], cfg.maxRank) && secondPoint == IsZeroRank(entry.rank[j + 1], cfg.maxRank)
    requires lineInterval == width / cfg.decades && heightRatio == (height - 2 * cfg.margin) as real / cfg.maxRank as real
    ensures DrawLine(lineInterval, firstPoint, secondPoint, heightRatio, cfg.margin, i, j) == Segment(cfg, width, height, entry, i, j)
  {
  }

  /** One round of drawGraphs's inner loop extends the series by decade j's primitives. */
  lemma SeriesRound(cfg: Config, width: nat, height: nat, entry: Entry, i: nat, j: nat, base: seq<Primitive>,
                    before: seq<Primitive>, middle: seq<Primitive>, after: seq<Primitive>)
    requires cfg.Valid() && j < cfg.decades == |entry.rank|
    requires before == base + SeriesUpTo(cfg, width, height, entry, i, j)
    requires middle == before + [Mark(cfg, width, height, entry, j)]
    requires after == middle + (if j < cfg.decades - 1 then [Segment(cfg, width, height, entry, i, j)] else [])
    ensures after == base + SeriesUpTo(cfg, width, height, entry, i, j + 1)
  {
    var g, m := SeriesUpTo(cfg, width, height, entry, i, j), [Mark(cfg, width, height, entry, j)];
    assert Marks(cfg, width, height, entry)[j] == Mark(cfg, width, height, entry, j);
    if j < cfg.decades - 1 {
      assert Segments(cfg, width, height, entry, i)[j] == Segment(cfg, width, height, entry, i, j);
    }
    assert SeriesUpTo(cfg, width, height, entry, i, j + 1)
      == g + m + (if j < cfg.decades - 1 then [Segment(cfg, width, height, entry, i, j)] else []);
    AppendAssoc(base, g, m);
    AppendAssoc(base, g + m, if j < cfg.decades - 1 then [Segment(cfg, width, height, entry, i, j)] else []);
  }

  /** A finished series extends the graphs by one entry. */
  lemma GraphsRound(cfg: Config, width: nat, height: nat, entries: seq<Entry>, i: nat, base: seq<Primitive>, after: seq<Primitive>)
    requires cfg.Valid() && Fits(cfg, entries) && i < |entries|
    requires after == base + GraphsUpTo(cfg, width, height, entries, i) + Series(cfg, width, height, entries[i], i)
    ensures after == base + GraphsUpTo(cfg, width, height, entries, i + 1)
  {
    assert AllSeries(cfg, width, height, entries)[i] == Series(cfg, width, height, entries[i], i);
    AppendAssoc(base, GraphsUpTo(cfg, width, height, entries, i), Series(cfg, width, height, entries[i], i));
  }

  /** The grid, then the graphs when there are entries, is the display. */
  lemma DisplayOf(cfg: Config, width: nat, height: nat, entries: seq<Entry>, grid: seq<Primitive>, after: seq<Primitive>)
    requires cfg.Valid() && Fits(cfg, entries)
    requires grid == [] + Grid(cfg, width, height)
    requires after == if entries == [] then grid else grid + Graphs(cfg, width, height, entries)
    ensures after == Display(cfg, width, height, entries)
  {
    assert [] + Grid(cfg, width, height) == Grid(cfg, width, height);
  }

  // ---------------------------------------------------------------------------------------------
  // Properties of the layout

  /** isZero(int) never yields 0: it keeps every rank but 0, and turns 0 into MAX_RANK. */
  lemma IsZeroRankEffective(rank: int, maxRank: nat)
    requires maxRank >= 1
    ensures IsZeroRank(rank, maxRank) != 0
    ensures IsZeroRank(rank, maxRank) == rank <==> rank != 0
    ensures 0 <= rank <= maxRank ==> 1 <= IsZeroRank(rank, maxRank) <= maxRank
  {
  }

  /** isZero(String) shows "*" for "0" (and for "*"), and every other text as it is. */
  lemma IsZeroScoreStar(score: string)
    ensures IsZeroScore(score) == "*" <==> score == "0" || score == "*"
    ensures score != "0" ==> IsZeroScore(score) == score
  {
  }

  /** An unranked decade is drawn on the lower margin line. */
  lemma UnrankedOnLowerLine(cfg: Config, width: nat, height: nat)
    requires cfg.Valid()
    ensures RankY(cfg, height, IsZeroRank(0, cfg.maxRank)) == LowerLine(cfg, width, height).y0
  {
    var room, m := (height - 2 * cfg.margin) as real, cfg.maxRank as real;
    assert m * (room / m) == room;
  }

  /** On a canvas taller than both margins, every rank from 0 to MAX_RANK is drawn between the margin lines. */
  lemma RankBetweenMargins(cfg: Config, height: nat, rank: int)
    requires cfg.Valid() && 0 <= rank <= cfg.maxRank && height >= 2 * cfg.margin
    ensures cfg.margin as real <= RankY(cfg, height, IsZeroRank(rank, cfg.maxRank)) <= (height - cfg.margin) as real
  {
    var r, room, m := IsZeroRank(rank, cfg.maxRank) as real, (height - 2 * cfg.margin) as real, cfg.maxRank as real;
    var ratio := room / m;
    assert ratio >= 0.0;
    assert r * ratio <= m * ratio;
    assert m * ratio == room;
  }

  /** The score text is "*" exactly for an unranked decade, and the numeral of the rank otherwise. */
  lemma ScoreTextStar(rank: int)
    ensures ScoreText(rank) == "*" <==> rank == 0
    ensures rank != 0 ==> ScoreText(rank) == IntToString(rank)
  {
    IntToStringShape(rank);
    assert IntToString(rank)[0] != "*"[0];
  }

  /** Colours repeat with period four. */
  lemma ChooseColorCycle(i: int)
    requires i >= 0
    ensures ChooseColor(i) == ChooseColor(i % 4) && ChooseColor(i + 4) == ChooseColor(i)
  {
  }

  /** The colour of series i is the (i mod 4)-th of red, blue, magenta and black. */
  lemma ChooseColorPalette(i: int)
    requires i >= 0
    ensures ChooseColor(i) == Some([Red, Blue, Magenta, Black][i % 4])
  {
  }

  /** Two series get the same colour exactly when their indices agree modulo four. */
  lemma ChooseColorSame(a: int, b: int)
    requires a >= 0 && b >= 0
    ensures ChooseColor(a) == ChooseColor(b) <==> a % 4 == b % 4
  {
    ChooseColorCycle(a);
    ChooseColorCycle(b);
  }

  // ---------------------------------------------------------------------------------------------
  // Where the primitives stand

  /**
   * makeGrid's primitives in order: for each boundary i in 1 .. NDECADES - 1 the vertical line at
   * x = lineInterval * i followed by the label of year 1900 + 10 * (i - 1) at x = lineInterval * (i - 1);
   * then the last year's label, and the upper and lower margin lines.
   */
  lemma GridAt(cfg: Config, width: nat, height: nat)
    requires cfg.Valid()
    ensures |Grid(cfg, width, height)| == 2 * cfg.decades + 1
    ensures forall i :: 1 <= i < cfg.decades ==>
      Grid(cfg, width, height)[2 * i - 2] == DecadeLine(cfg, width, height, i)
      && Grid(cfg, width, height)[2 * i - 1] == YearLabel(cfg, width, height, i - 1)
    ensures Grid(cfg, width, height)[2 * cfg.decades - 2] == YearLabel(cfg, width, height, cfg.decades - 1)
    ensures Grid(cfg, width, height)[2 * cfg.decades - 1] == UpperLine(cfg, width)
    ensures Grid(cfg, width, height)[2 * cfg.decades] == LowerLine(cfg, width, height)
  {
    var n := cfg.decades;
    var lines, years := DecadeLines(cfg, width, height), YearLabels(cfg, width, height);
    var g := Weave(lines, years, n);
    var tail := [UpperLine(cfg, width), LowerLine(cfg, width, height)];
    WeaveLast(lines, years, n);
    forall i | 1 <= i < n
      ensures Grid(cfg, width, height)[2 * i - 2] == DecadeLine(cfg, width, height, i)
      ensures Grid(cfg, width, height)[2 * i - 1] == YearLabel(cfg, width, height, i - 1)
    {
      WeaveAt(lines, years, n, i - 1);
      PrefixAt(g, tail, 2 * i - 2);
      PrefixAt(g, tail, 2 * i - 1);
    }
    PrefixAt(g, tail, 2 * n - 2);
  }

  /**
   * The primitives of series i in order: for each decade j the label of decade j, then, before the
   * last decade, the segment from decade j to decade j + 1.
   */
  lemma SeriesAt(cfg: Config, width: nat, height: nat, entry: Entry, i: nat)
    requires cfg.Valid() && cfg.decades == |entry.rank|
    ensures |Series(cfg, width, height, entry, i)| == 2 * cfg.decades - 1
    ensures forall j :: 0 <= j < cfg.decades ==> Series(cfg, width, height, entry, i)[2 * j] == Mark(cfg, width, height, entry, j)
    ensures forall j :: 0 <= j < cfg.decades - 1 ==> Series(cfg, width, height, entry, i)[2 * j + 1] == Segment(cfg, width, height, entry, i, j)
  {
    var n := cfg.decades;
    var marks, segments := Marks(cfg, width, height, entry), Segments(cfg, width, height, entry, i);
    WeaveLast(marks, segments, n);
    forall j | 0 <= j < n
      ensures Series(cfg, width, height, entry, i)[2 * j] == Mark(cfg, width, height, entry, j)
    {
      if j < n - 1 {
        WeaveAt(marks, segments, n, j);
      }
    }
    forall j | 0 <= j < n - 1
      ensures Series(cfg, width, height, entry, i)[2 * j + 1] == Segment(cfg, width, height, entry, i, j)
    {
      WeaveAt(marks, segments, n, j);
    }
  }

  /** The segment of series i from decade j spans one decade interval, in the colour of its series. */
  lemma SegmentSpan(cfg: Config, width: nat, height: nat, entry: Entry, i: nat, j: nat)
    requires cfg.Valid() && j + 1 < |entry.rank|
    ensures Segment(cfg, width, height, entry, i, j).Line?
    ensures Segment(cfg, width, height, entry, i, j).color == ChooseColor(i)
    ensures Segment(cfg, width, height, entry, i, j).x0 == (LineInterval(cfg, width) * j) as real
    ensures Segment(cfg, width, height, entry, i, j).x1 == (LineInterval(cfg, width) * (j + 1)) as real
  {
  }

  /**
   * The segment from decade j runs from the point of decade j's label to the point of decade
   * j + 1's label; so consecutive segments of a series meet.
   */
  lemma SegmentJoinsMarks(cfg: Config, width: nat, height: nat, entry: Entry, i: nat, j: nat)
    requires cfg.Valid() && j + 1 < |entry.rank|
    ensures Segment(cfg, width, height, entry, i, j).Line?
    ensures Segment(cfg, width, height, entry, i, j).x0 == Mark(cfg, width, height, entry, j).x
    ensures Segment(cfg, width, height, entry, i, j).y0 == Mark(cfg, width, height, entry, j).y
    ensures Segment(cfg, width, height, entry, i, j).x1 == Mark(cfg, width, height, entry, j + 1).x
    ensures Segment(cfg, width, height, entry, i, j).y1 == Mark(cfg, width, height, entry, j + 1).y
  {
    var li, ratio := LineInterval(cfg, width), HeightRatio(cfg, height);
    var p, q := IsZeroRank(entry.rank[j], cfg.maxRank), IsZeroRank(entry.rank[j + 1], cfg.maxRank);
    assert Segment(cfg, width, height, entry, i, j) == DrawLine(li, p, q, ratio, cfg.margin, i, j);
  }

  /** The label of decade j: " name score", at the decade's x and at the height of its rank, 0 drawn as MAX_RANK. */
  lemma MarkPlacement(cfg: Config, width: nat, height: nat, entry: Entry, j: nat)
    requires cfg.Valid() && j < |entry.rank|
    ensures Mark(cfg, width, height, entry, j).Label?
    ensures Mark(cfg, width, height, entry, j).text == " " + entry.GetName() + " " + ScoreText(entry.GetRank(j))
    ensures Mark(cfg, width, height, entry, j).x == (LineInterval(cfg, width) * j) as real
    ensures Mark(cfg, width, height, entry, j).y == RankY(cfg, height, IsZeroRank(entry.GetRank(j), cfg.maxRank))
  {
  }

  /** Labels at the even positions and lines of colour c at the odd ones, position by position. */
  lemma Alternating(s: seq<Primitive>, n: nat, c: Option<Color>)
    requires |s| == 2 * n - 1
    requires forall j :: 0 <= j < n ==> s[2 * j].Label?
    requires forall j :: 0 <= j < n - 1 ==> s[2 * j + 1].Line? && s[2 * j + 1].color == c
    ensures forall k :: 0 <= k < |s| ==> if k % 2 == 0 then s[k].Label? else s[k].Line? && s[k].color == c
  {
    forall k | 0 <= k < |s| ensures if k % 2 == 0 then s[k].Label? else s[k].Line? && s[k].color == c {
      var j := k / 2;
      if k % 2 == 0 {
        assert k == 2 * j;
      } else {
        assert k == 2 * j + 1;
      }
    }
  }

  /** In series i the labels and the lines alternate, and every line is drawn in the colour of series i. */
  lemma SeriesColoured(cfg: Config, width: nat, height: nat, entry: Entry, i: nat)
    requires cfg.Valid() && cfg.decades == |entry.rank|
    ensures forall k :: 0 <= k < |Series(cfg, width, height, entry, i)| ==>
      if k % 2 == 0 then Series(cfg, width, height, entry, i)[k].Label?
      else Series(cfg, width, height, entry, i)[k].Line? && Series(cfg, width, height, entry, i)[k].color == ChooseColor(i)
  {
    var s, n := Series(cfg, width, height, entry, i), cfg.decades;
    SeriesAt(cfg, width, height, entry, i);
    forall j | 0 <= j < n ensures s[2 * j].Label? {
      MarkPlacement(cfg, width, height, entry, j);
    }
    forall j | 0 <= j < n - 1 ensures s[2 * j + 1].Line? && s[2 * j + 1].color == ChooseColor(i) {
      SegmentSpan(cfg, width, height, entry, i, j);
    }
    Alternating(s, n, ChooseColor(i));
  }

  // ---------------------------------------------------------------------------------------------
  // How many primitives there are

  /** The number of labels in s when `labels`, and of lines otherwise. */
  function Count(s: seq<Primitive>, labels: bool): nat {
    if s == [] then 0 else Count(s[..|s| - 1], labels) + (if s[|s| - 1].Label? == labels then 1 else 0)
  }

  lemma CountSnoc(s: seq<Primitive>, p: Primitive, labels: bool)
    ensures Count(s + [p], labels) == Count(s, labels) + (if p.Label? == labels then 1 else 0)
  {
    assert (s + [p])[..|s|] == s;
  }

  lemma {:induction false} CountAppend(a: seq<Primitive>, b: seq<Primitive>, labels: bool)
    ensures Count(a + b, labels) == Count(a, labels) + Count(b, labels)
    decreases |b|
  {
    if b == [] {
      assert a + b == a;
    } else {
      var b', p := b[..|b| - 1], b[|b| - 1];
      CountAppend(a, b', labels);
      assert b == b' + [p];
      AppendAssoc(a, b', [p]);
      CountSnoc(a + b', p, labels);
      CountSnoc(b', p, labels);
    }
  }

  /** A round that adds o1 and o2 adds their counts to both sides. */
  lemma CountRound(w: seq<Primitive>, a: seq<Primitive>, b: seq<Primitive>, o1: seq<Primitive>, o2: seq<Primitive>,
                   total: seq<Primitive>, a': seq<Primitive>, b': seq<Primitive>, labels: bool)
    requires Count(w, labels) == Count(a, labels) + Count(b, labels)
    requires total == w + o1 + o2 && a' == a + o1 && b' == b + o2
    ensures Count(total, labels) == Count(a', labels) + Count(b', labels)
  {
    CountAppend(w, o1, labels);
    CountAppend(w + o1, o2, labels);
    CountAppend(a, o1, labels);
    CountAppend(b, o2, labels);
  }

  /** One more round reaches one more element of a sequence, unless it ran out. */
  lemma TakeNext<T>(s: seq<T>, n: nat)
    ensures s[..Min(n + 1, |s|)] == s[..Min(n, |s|)] + (if n < |s| then [s[n]] else [])
  {
    if n < |s| {
      assert s[..n + 1] == s[..n] + [s[n]];
    }
  }

  /** The first k rounds add the first k elements of each sequence, or all of it when it is shorter. */
  lemma {:induction false} WeaveCount(first: seq<Primitive>, second: seq<Primitive>, k: nat, labels: bool)
    ensures Count(Weave(first, second, k), labels) == Count(first[..Min(k, |first|)], labels) + Count(second[..Min(k, |second|)], labels)
    decreases k
  {
    if k > 0 {
      var w := Weave(first, second, k - 1);
      var a, b := first[..Min(k - 1, |first|)], second[..Min(k - 1, |second|)];
      var o1 := if k - 1 < |first| then [first[k - 1]] else [];
      var o2 := if k - 1 < |second| then [second[k - 1]] else [];
      WeaveCount(first, second, k - 1, labels);
      TakeNext(first, k - 1);
      TakeNext(second, k - 1);
      CountRound(w, a, b, o1, o2, Weave(first, second, k), first[..Min(k, |first|)], second[..Min(k, |second|)], labels);
    }
  }

  /** A sequence of labels only, or of lines only. */
  lemma {:induction false} CountUniform(s: seq<Primitive>, labels: bool)
    requires forall k :: 0 <= k < |s| ==> s[k].Label? == labels
    ensures Count(s, labels) == |s| && Count(s, !labels) == 0
    decreases |s|
  {
    if s != [] {
      CountUniform(s[..|s| - 1], labels);
    }
  }

  lemma GridUpToCount(cfg: Config, width: nat, height: nat, labels: bool)
    requires cfg.Valid()
    ensures Count(GridUpTo(cfg, width, height, cfg.decades), labels) == if labels then cfg.decades else cfg.decades - 1
  {
    var lines, years := DecadeLines(cfg, width, height), YearLabels(cfg, width, height);
    WeaveCount(lines, years, cfg.decades, labels);
    assert lines[..Min(cfg.decades, |lines|)] == lines && years[..Min(cfg.decades, |years|)] == years;
    CountUniform(lines, false);
    CountUniform(years, true);
  }

  /** Two lines appended add two to the lines and nothing to the labels. */
  lemma CountMargins(g: seq<Primitive>, u: Primitive, l: Primitive, labels: bool)
    requires u.Line? && l.Line?
    ensures Count(g + [u, l], labels) == Count(g, labels) + if labels then 0 else 2
  {
    AppendAssoc(g, [u], [l]);
    assert [u] + [l] == [u, l];
    CountSnoc(g, u, labels);
    CountSnoc(g + [u], l, labels);
  }

  /** makeGrid adds NDECADES labels and NDECADES + 1 lines: NDECADES - 1 decade lines and two margin lines. */
  lemma GridCount(cfg: Config, width: nat, height: nat)
    requires cfg.Valid()
    ensures Count(Grid(cfg, width, height), true) == cfg.decades
    ensures Count(Grid(cfg, width, height), false) == cfg.decades + 1
  {
    var g, u, l := GridUpTo(cfg, width, height, cfg.decades), UpperLine(cfg, width), LowerLine(cfg, width, height);
    GridUpToCount(cfg, width, height, true);
    GridUpToCount(cfg, width, height, false);
    CountMargins(g, u, l, true);
    CountMargins(g, u, l, false);
  }

  lemma SeriesCountOf(cfg: Config, width: nat, height: nat, entry: Entry, i: nat, labels: bool)
    requires cfg.Valid() && cfg.decades == |entry.rank|
    ensures Count(Series(cfg, width, height, entry, i), labels) == if labels then cfg.decades else cfg.decades - 1
  {
    var marks, segments := Marks(cfg, width, height, entry), Segments(cfg, width, height, entry, i);
    WeaveCount(marks, segments, cfg.decades, labels);
    assert marks[..Min(cfg.decades, |marks|)] == marks && segments[..Min(cfg.decades, |segments|)] == segments;
    CountUniform(marks, true);
    CountUniform(segments, false);
  }

  /** Series i has NDECADES labels and NDECADES - 1 segments. */
  lemma SeriesCount(cfg: Config, width: nat, height: nat, entry: Entry, i: nat)
    requires cfg.Valid() && cfg.decades == |entry.rank|
    ensures Count(Series(cfg, width, height, entry, i), true) == cfg.decades
    ensures Count(Series(cfg, width, height, entry, i), false) == cfg.decades - 1
  {
    SeriesCountOf(cfg, width, height, entry, i, true);
    SeriesCountOf(cfg, width, height, entry, i, false);
  }

  lemma MulSucc(m: int, n: int)
    ensures (m + 1) * n == m * n + n
  {
  }

  /** Parts of d labels (or lines) each: the first m of them hold m times d. */
  lemma {:induction false} ConcatCount(parts: seq<seq<Primitive>>, m: nat, labels: bool, d: nat)
    requires m <= |parts|
    requires forall k :: 0 <= k < |parts| ==> Count(parts[k], labels) == d
    ensures Count(Concat(parts, m), labels) == m * d
    decreases m
  {
    if m > 0 {
      ConcatCount(parts, m - 1, labels, d);
      CountAppend(Concat(parts, m - 1), parts[m - 1], labels);
      MulSucc(m - 1, d);
    }
  }

  /** The first m series: m times NDECADES labels, and m times NDECADES - 1 segments. */
  lemma GraphsUpToCount(cfg: Config, width: nat, height: nat, entries: seq<Entry>, m: nat, labels: bool)
    requires cfg.Valid() && Fits(cfg, entries) && m <= |entries|
    ensures Count(GraphsUpTo(cfg, width, height, entries, m), labels) == m * if labels then cfg.decades else cfg.decades - 1
  {
    var parts := AllSeries(cfg, width, height, entries);
    var d := if labels then cfg.decades else cfg.decades - 1;
    forall k | 0 <= k < |parts| ensures Count(parts[k], labels) == d {
      SeriesCountOf(cfg, width, height, entries[k], k, labels);
    }
    ConcatCount(parts, m, labels, d);
  }

  /**
   * The display for n entries: the grid's NDECADES labels and NDECADES + 1 lines, and for every
   * entry NDECADES labels and NDECADES - 1 segments. With no entries it is the grid alone.
   */
  lemma DisplayCount(cfg: Config, width: nat, height: nat, entries: seq<Entry>)
    requires cfg.Valid() && Fits(cfg, entries)
    ensures entries == [] ==> Display(cfg, width, height, entries) == Grid(cfg, width, height)
    ensures Count(Display(cfg, width, height, entries), true) == cfg.decades + |entries| * cfg.decades
    ensures Count(Display(cfg, width, height, entries), false) == cfg.decades + 1 + |entries| * (cfg.decades - 1)
  {
    GridCount(cfg, width, height);
    GraphsUpToCount(cfg, width, height, entries, |entries|, true);
    GraphsUpToCount(cfg, width, height, entries, |entries|, false);
    if entries == [] {
      assert Grid(cfg, width, height) + [] == Grid(cfg, width, height);
    } else {
      CountAppend(Grid(cfg, width, height), Graphs(cfg, width, height, entries), true);
      CountAppend(Grid(cfg, width, height), Graphs(cfg, width, height, entries), false);
    }
  }

  // ---------------------------------------------------------------------------------------------
  // The canvas object

  /** NameSurferGraph: the list of entries shown, the size of the component and what it displays. */
  class Graph {
    const cfg: Config
    var width: nat
    var height: nat
    var entries: seq<Entry>
    var canvas: seq<Primitive>

    ghost predicate Valid()
      reads this`entries
    {
      cfg.Valid() && Fits(cfg, entries)
    }

    /** A graph with no entries and an empty canvas, for a component of the given size. */
    constructor (cfg: Config, width: nat, height: nat)
      requires cfg.Valid()
      ensures Valid() && this.cfg == cfg && this.width == width && this.height == height
      ensures entries == [] && canvas == []
    {
      this.cfg := cfg;
      this.width := width;
      this.height := height;
      entries := [];
      canvas := [];
    }

    /** GCanvas.add: the primitive goes on top of the display list. */
    method Add(p: Primitive)
      modifies this`canvas
      ensures canvas == old(canvas) + [p]
    {
      canvas := canvas + [p];
    }

    /** clear(): no entries any more, and the canvas redrawn. */
    method Clear()
      requires Valid()
      modifies this
      ensures Valid() && entries == [] && width == old(width) && height == old(height)
      ensures canvas == Grid(cfg, width, height)
    {
      entries := [];
      Update();
    }

    /** addEntry(entry): the entry appended after the others, and the canvas redrawn. */
    method AddEntry(entry: Entry)
      requires Valid() && |entry.rank| == cfg.decades
      modifies this
      ensures Valid() && entries == old(entries) + [entry] && width == old(width) && height == old(height)
      ensures canvas == Display(cfg, width, height, entries)
    {
      entries := entries + [entry];
      Update();
    }

    /** componentResized: the component has taken a new size, and the canvas is redrawn for it. */
    method ComponentResized(newWidth: nat, newHeight: nat)
      requires Valid()
      modifies this
      ensures Valid() && entries == old(entries) && width == newWidth && height == newHeight
      ensures canvas == Display(cfg, width, height, entries)
    {
      width, height := newWidth, newHeight;
      Update();
    }

    /** update(): the canvas emptied, then the grid, then the graphs if there are entries. */
    method Update()
      requires Valid()
      modifies this`canvas
      ensures canvas == Display(cfg, width, height, entries)
    {
      canvas := [];
      MakeGrid();
      ghost var grid := canvas;
      if entries != [] {
        DrawGraphs();
      }
      DisplayOf(cfg, width, height, entries, grid, canvas);
    }

    /** makeGrid(): adds the decade lines, the year labels and the two margin lines. */
    method MakeGrid()
      requires Valid()
      modifies this`canvas
      ensures canvas == old(canvas) + Grid(cfg, width, height)
    {
      var lowerBound := height;
      var startYear := START_YEAR;
      var lineInterval := width / cfg.decades;
      for i := 1 to cfg.decades + 1
        invariant canvas == old(canvas) + GridUpTo(cfg, width, height, i - 1)
      {
        ghost var before := canvas;
        ghost var middle := GridDecade(i, lineInterval, lowerBound, startYear);
        GridRound(cfg, width, height, i, old(canvas), before, middle, canvas);
      }
      ghost var rounds := canvas;
      var upperLine := Line(0.0, cfg.margin as real, width as real, cfg.margin as real, None);
      var lowerLine := Line(0.0, (lowerBound - cfg.margin) as real, width as real, (lowerBound - cfg.margin) as real, None);
      Add(upperLine);
      ghost var middle := canvas;
      Add(lowerLine);
      GridClose(cfg, width, height, old(canvas), rounds, middle, canvas);
    }

    /**
     * The body of makeGrid's loop, round i: the line of boundary i unless i is the last decade,
     * then the label of decade i - 1. `middle` is the canvas between the two.
     */
    method GridDecade(i: nat, lineInterval: int, lowerBound: int, startYear: int) returns (ghost middle: seq<Primitive>)
      requires cfg.Valid() && lineInterval == width / cfg.decades && lowerBound == height && startYear == START_YEAR
      modifies this`canvas
      ensures middle == old(canvas) + (if i < cfg.decades then [DecadeLine(cfg, width, height, i)] else [])
      ensures canvas == middle + [YearLabel(cfg, width, height, i - 1)]
    {
      if i < cfg.decades {
        var decade := Line((lineInterval * i) as real, 0.0, (lineInterval * i) as real, lowerBound as real, None);
        DecadeLineOf(cfg, width, height, i, lineInterval, lowerBound, decade);
        Add(decade);
      }
      var thisYear := startYear + (i - 1) * 10;
      var year := Label(IntToString(thisYear), (lineInterval * (i - 1)) as real,
                        lowerBound as real - (cfg.margin as real - cfg.yearHeight));
      YearLabelOf(cfg, width, height, i, lineInterval, lowerBound, thisYear, year);
      middle := canvas;
      Add(year);
    }

    /**
     * drawGraphs(): for each entry in order, for each decade, the decade's label and (before the
     * last decade) the segment to the next decade.
     */
    method DrawGraphs()
      requires Valid()
      modifies this`canvas
      ensures canvas == old(canvas) + Graphs(cfg, width, height, entries)
    {
      var lineInterval := width / cfg.decades;
      for i := 0 to |entries|
        invariant canvas == old(canvas) + GraphsUpTo(cfg, width, height, entries, i)
      {
        var entry := entries[i];
        DrawSeries(entry, i, lineInterval);
        GraphsRound(cfg, width, height, entries, i, old(canvas), canvas);
      }
    }

    /**
     * The body of drawGraphs's outer loop, for entry number i. markScore adds the label to the
     * canvas and drawGraphs adds the same label object again; re-adding the object that is already
     * on top of the canvas leaves the canvas as it is, so the label appears once.
     */
    method DrawSeries(entry: Entry, i: nat, lineInterval: int)
      requires cfg.Valid() && |entry.rank| == cfg.decades && lineInterval == width / cfg.decades
      modifies this`canvas
      ensures canvas == old(canvas) + Series(cfg, width, height, entry, i)
    {
      for j := 0 to cfg.decades
        invariant canvas == old(canvas) + SeriesUpTo(cfg, width, height, entry, i, j)
      {
        var firstPoint := entry.GetRank(j);
        var secondPoint := 0;
        if j < cfg.decades - 1 {
          secondPoint := entry.GetRank(j + 1);
          secondPoint := IsZeroRank(secondPoint, cfg.maxRank);
        }
        var score := IntToString(entry.GetRank(j));
        firstPoint := IsZeroRank(firstPoint, cfg.maxRank);
        score := IsZeroScore(score);
        var heightRatio := (height - 2 * cfg.margin) as real / cfg.maxRank as real;
        ghost var before := canvas;
        MarkOf(cfg, width, height, entry, j, score, firstPoint, lineInterval, heightRatio);
        Add(MarkScore(entry, score, firstPoint, lineInterval, heightRatio, cfg.margin, j));
        ghost var middle := canvas;
        if j < cfg.decades - 1 {
          SegmentOf(cfg, width, height, entry, i, j, firstPoint, secondPoint, lineInterval, heightRatio);
          Add(DrawLine(lineInterval, firstPoint, secondPoint, heightRatio, cfg.margin, i, j));
        }
        SeriesRound(cfg, width, height, entry, i, j, old(canvas), before, middle, canvas);
      }
    }
  }
}
