# NameSurfer in Dafny

NameSurfer charts how popular baby names were from decade to decade. A data file has one line per
name. Each line holds the name and its rank in each of NDECADES decades, starting in 1900. A rank
of 0 means the name was not ranked that decade. This project models the three classes that hold
the program's logic and proves properties about them.

- **NameSurferEntry** (`NameSurferEntry.dfy`). An entry is an immutable value, modelled as
  `Entry(name, rank)`.
  - The Java constructor scans the line from space to space and writes the ranks into an array.
    `NameSurferEntryReader.ParseEntry` models that loop, with the array.
  - It is proved equal to `ParseLine`, a declarative definition of the accepted lines: a name,
    then exactly NDECADES Java `int` tokens, all separated by single spaces.
  - On top of that, the model proves:
    - the round trip with the data-file format;
    - what `getName`, `getRank` and `toString` return;
    - that `toString` is injective.
- **NameSurferDataBase** (`NameSurferDataBase.dfy`). The class `DataBase` holds a `records` map
  from the upper-cased name to the raw line.
  - `DataBase.Load` models the constructor's read loop over the lines of the file.
  - It is proved equal to the fold `Table`, whose lemmas prove three things:
    - all-or-nothing loading;
    - last write wins;
    - where every stored line comes from.
  - `FindEntry` parses the stored line again. `Search` adds the caller's upper-casing of the query
    at `NameSurfer.java:52`.
- **NameSurferGraph** (`NameSurferGraph.dfy`). The class `Graph` holds `entries`, the component
  size and the canvas.
  - The canvas is the display list, kept as a sequence of `Primitive`s: coloured lines and labels.
  - `MakeGrid`, `DrawGraphs` and their loop bodies `GridDecade` and `DrawSeries` are imperative
    methods that append to the canvas. They are proved against the specification functions `Grid`
    and `Series`.
  - `Grid` and `Series` are defined with `Weave`. `Weave` is what a loop has added after k rounds,
    where each round contributes at most one element from each of two sequences.
  - Lemmas over these functions prove:
    - where each primitive stands;
    - how many labels and segments there are;
    - that segments join and take the series' colour;
    - that unranked decades sit on the lower margin line.

`JavaText.dfy` holds the parts of the Java library the code relies on, on ASCII text:
- `String.indexOf`;
- `Integer.parseInt` and `Integer.toString`, with the 32-bit range of `int`;
- ASCII upper-casing;
- the token joining that `Arrays.toString` and the data format share.

The model takes these values as parameters:
- the constants NDECADES, MAX_RANK and GRAPH_MARGIN_SIZE (the `n`/`decades` parameter and the
  graph's `Config`);
- the font-dependent height of a year label (`Config.yearHeight`);
- the component's size (`Graph.width` and `Graph.height`).

Pixel coordinates are exact `real`s.

Three behaviours of the code are worth noting:
- **A malformed data line aborts the load.** The `NameSurferEntry` constructor throws, and the
  database constructor catches only `IOException`, so the exception escapes and no database is
  built. `Load` returns `None` exactly when some line does not parse.
- **Point labels have no colour.** Only segments are coloured.
- **A point label's text is `" " + name + " " + score`.**

## Model

| member | source | states |
|---|---|---|
| NameSurferEntryReader.ParseEntry | src/NameSurferEntry.java:21-36 | the constructor's scan loop yields exactly `ParseLine(line, n)`: the entry when the line is accepted, and failure for every line on which the constructor throws |
| NameSurferEntry.ParseLine | src/NameSurferEntry.java:21-36 | an accepted line has n >= 1 ranks, each a Java `int`; the name is the text before the first space, so it holds no space |
| NameSurferEntry.NoSpaceRejected | src/NameSurferEntry.java:22 | a line without a space is rejected, because `substring(0, -1)` throws |
| NameSurferEntry.ScanTooFew | src/NameSurferEntry.java:24-27 | running out of spaces before n - 1 ranks are read means too few tokens: rejected |
| NameSurferEntry.ScanBadToken | src/NameSurferEntry.java:26-27 | a rank token that `parseInt` refuses rejects the line |
| NameSurferEntry.ScanBadLast | src/NameSurferEntry.java:32 | a remainder that is not an int rejects the line; this covers extra tokens, since the remainder then holds a space |
| NameSurferEntry.ScanComplete | src/NameSurferEntry.java:32-35 | n - 1 ranks read and an int remainder give the accepted entry with all n ranks |
| NameSurferEntry.ParseIntsSome | src/NameSurferEntry.java:26-32 | when all tokens parse, each token parses to the rank at its position |
| NameSurferEntry.ParseIntsNone | src/NameSurferEntry.java:26-32 | one token that is not an int makes the whole list fail |
| NameSurferEntry.SplitSpaceFree | src/NameSurferEntry.java:22-30 | no token cut at the spaces holds a space |
| NameSurferEntry.JoinSplit | src/NameSurferEntry.java:22-30 | joining the tokens with single spaces gives back the line |
| NameSurferEntry.SplitJoin | src/NameSurferEntry.java:22-30 | cutting a space-joined list of space-free tokens gives the tokens back |
| NameSurferEntry.ParseDataLine | src/NameSurferEntry.java:21-53 | round trip: the data line for a space-free name and n Java ints parses to that entry; `getName` returns the name and `getRank(k)` returns the k-th int |
| NameSurferEntry.Entry.GetName | src/NameSurferEntry.java:41-43 | the name as it appears in the line; ParseDataLine proves that it is the name the data line was written with |
| NameSurferEntry.Entry.GetRank | src/NameSurferEntry.java:51-53 | the stored rank for decades 0 .. NDECADES - 1, the 0 sentinel included; ParseDataLine proves that `getRank(k)` returns the k-th rank of the line |
| NameSurferEntry.Entry.ToString | src/NameSurferEntry.java:59-61 | the name, a space and the ranks as `Arrays.toString` prints them; ToStringInjective proves that it tells entries apart |
| NameSurferEntry.NumeralsInjective | src/NameSurferEntry.java:60 | rank arrays with the same numerals are equal |
| NameSurferEntry.ToStringInjective | src/NameSurferEntry.java:59-61 | entries with space-free names and at least one rank that print the same are the same entry |
| JavaText.IndexOf | src/NameSurferEntry.java:22-24 | `indexOf(c, from)` is -1 or an index at or after `from` that holds `c` |
| JavaText.IndexOfFirstOccurrence | src/NameSurferEntry.java:22-24 | no position between `from` and the result holds `c` |
| JavaText.ParseInt | src/NameSurferEntry.java:26-27 | an accepted string is non-empty and its value is in the `int` range |
| JavaText.ParseIntSpaceFree | src/NameSurferEntry.java:32 | what `parseInt` accepts holds no space and no comma |
| JavaText.IntToStringShape | src/NameSurferGraph.java:100 | `Integer.toString` is non-empty, made of digits and a leading minus exactly for negatives, and "0" only for 0 |
| JavaText.ParseIntToString | src/NameSurferEntry.java:26-32 | `parseInt(Integer.toString(v)) == v` for every Java `int` |
| JavaText.IntToStringInjective | src/NameSurferEntry.java:60 | different ints have different numerals |
| JavaText.ToUpper | src/NameSurferDataBase.java:38 | upper-casing keeps the length and leaves no lower-case ASCII letter |
| JavaText.ToUpperIdempotent | src/NameSurferDataBase.java:38 | upper-casing twice is upper-casing once |
| JavaText.JoinInjective | src/NameSurferEntry.java:60 | tokens free of the separator are determined by their join |
| NameSurferDataBase.DataBase.Empty | src/NameSurferDataBase.java:20 | a new database has an empty records map |
| NameSurferDataBase.Table | src/NameSurferDataBase.java:32-40 | the records after the read loop: each line put under its upper-cased name in turn, or no table when a line does not parse; TableSomeIff, TableStored, TableLastWins and TableOrigin state what it holds |
| NameSurferDataBase.DataBase.Load | src/NameSurferDataBase.java:28-45 | loading succeeds exactly when `Table` does, and then the records are `Table(lines)`; every stored line parses under its key |
| NameSurferDataBase.TableSomeIff | src/NameSurferDataBase.java:37-44 | the load succeeds if and only if every line parses; one malformed line aborts it |
| NameSurferDataBase.TableStored | src/NameSurferDataBase.java:37-39 | every stored line parses to an entry whose upper-cased name is the key it is stored under |
| NameSurferDataBase.TableLastWins | src/NameSurferDataBase.java:39 | the last line with a given key is the one stored under that key |
| NameSurferDataBase.TableOrigin | src/NameSurferDataBase.java:37-39 | every key comes from a line, the last one with that key, stored unchanged |
| NameSurferDataBase.TableMiss | src/NameSurferDataBase.java:37-39 | a key no line has is absent |
| NameSurferDataBase.Find | src/NameSurferDataBase.java:51-57 | `findEntry`: the stored line under exactly the key, parsed again, or null; FindStored, FindLoaded and FindAbsent state what it finds |
| NameSurferDataBase.StoredKeyUpper | src/NameSurferDataBase.java:38 | every stored key is its own upper case |
| NameSurferDataBase.FindStored | src/NameSurferDataBase.java:51-57 | `findEntry` hits exactly the stored keys, and a hit's upper-cased name is the key |
| NameSurferDataBase.FindLoaded | src/NameSurferDataBase.java:51-55 | after loading, the upper case of a query finds the entry of the last line with that key, with the file's own casing of the name |
| NameSurferDataBase.FindAbsent | src/NameSurferDataBase.java:51-57 | after loading, a query whose upper case is no line's key finds null |
| NameSurferDataBase.DataBase.FindEntry | src/NameSurferDataBase.java:51-57 | an exact-key lookup that parses the stored line again; non-null exactly for present keys; the records are not changed |
| NameSurferDataBase.DataBase.Search | src/NameSurfer.java:52-54 | the query is upper-cased, then looked up |
| NameSurferGraph.IsZeroRank | src/NameSurferGraph.java:66-71 | `isZero(int)`: 0 becomes MAX_RANK; IsZeroRankEffective states its properties |
| NameSurferGraph.IsZeroScore | src/NameSurferGraph.java:79-84 | `isZero(String)`: "0" becomes "*"; IsZeroScoreStar and ScoreTextStar state its properties |
| NameSurferGraph.DrawLine | src/NameSurferGraph.java:128-135 | `drawLine`: the segment between the points of two decades, in the series' colour; SegmentJoinsMarks and SeriesColoured state where it goes and how it is drawn |
| NameSurferGraph.MarkScore | src/NameSurferGraph.java:148-154 | `markScore`: the label " name score" at a decade's point; UnrankedOnLowerLine and RankBetweenMargins state where ranks land |
| NameSurferGraph.DecadeLine | src/NameSurferGraph.java:188-191 | the vertical line of a decade boundary; GridAt states which grid positions hold these lines |
| NameSurferGraph.YearLabel | src/NameSurferGraph.java:193-196 | the year label of a decade; GridAt states which grid positions hold these labels |
| NameSurferGraph.Grid | src/NameSurferGraph.java:183-205 | everything `makeGrid` adds; GridAt and GridCount state its contents |
| NameSurferGraph.Series | src/NameSurferGraph.java:93-113 | everything drawn for one entry; SeriesAt, SeriesColoured and SeriesCount state its contents |
| NameSurferGraph.Display | src/NameSurferGraph.java:52-58 | the canvas after `update`; DisplayCount states its contents |
| NameSurferGraph.IsZeroRankEffective | src/NameSurferGraph.java:66-71 | `isZero(int)` never yields 0; it keeps every rank except 0, and maps 0..MAX_RANK into 1..MAX_RANK |
| NameSurferGraph.IsZeroScoreStar | src/NameSurferGraph.java:79-84 | `isZero(String)` gives "*" for "0" (and for "*") and returns every other text unchanged |
| NameSurferGraph.ScoreTextStar | src/NameSurferGraph.java:100-103 | a point's score text is "*" exactly when the rank is 0, and the numeral otherwise |
| NameSurferGraph.ChooseColor | src/NameSurferGraph.java:161-178 | a colour exactly for non-negative indices, null for negative ones |
| NameSurferGraph.ChooseColorCycle | src/NameSurferGraph.java:161-178 | for i >= 0, the colour of i is that of i % 4 and of i + 4 |
| NameSurferGraph.ChooseColorPalette | src/NameSurferGraph.java:161-178 | the colour of series i is red, blue, magenta or black for i % 4 = 0, 1, 2 or 3 |
| NameSurferGraph.ChooseColorSame | src/NameSurferGraph.java:161-178 | two series share a colour if and only if their indices agree modulo 4 |
| NameSurferGraph.UnrankedOnLowerLine | src/NameSurferGraph.java:101-105 | an unranked decade is drawn at height - GRAPH_MARGIN_SIZE, the y of the lower margin line |
| NameSurferGraph.RankBetweenMargins | src/NameSurferGraph.java:104-105 | on a canvas at least twice the margin tall, every rank from 0 to MAX_RANK is drawn between the two margin lines |
| NameSurferGraph.GridAt | src/NameSurferGraph.java:183-205 | the grid has 2 * NDECADES + 1 primitives: the line at x = lineInterval * i for boundary i, then the label of decade i - 1, for i in 1..NDECADES - 1; then the last year label, the upper line and the lower line |
| NameSurferGraph.GridCount | src/NameSurferGraph.java:183-205 | the grid has NDECADES labels and NDECADES + 1 lines |
| NameSurferGraph.SeriesAt | src/NameSurferGraph.java:93-113 | series i has 2 * NDECADES - 1 primitives: decade j's label at 2j and its segment to decade j + 1 at 2j + 1 |
| NameSurferGraph.SeriesCount | src/NameSurferGraph.java:93-113 | a series has NDECADES labels and NDECADES - 1 lines |
| NameSurferGraph.SeriesColoured | src/NameSurferGraph.java:107-111 | in series i, labels and segments alternate, starting with a label, and every segment carries `chooseColor(i)` |
| NameSurferGraph.SegmentJoinsMarks | src/NameSurferGraph.java:94-111 | segment j starts at decade j's point and ends at decade j + 1's point: consecutive segments meet |
| NameSurferGraph.DisplayCount | src/NameSurferGraph.java:52-58 | with no entries the display is the grid alone; with n entries it has NDECADES + n * NDECADES labels and NDECADES + 1 + n * (NDECADES - 1) lines |
| NameSurferGraph.Graph.constructor | src/NameSurferGraph.java:20-27 | a new graph has no entries and an empty canvas |
| NameSurferGraph.Graph.Clear | src/NameSurferGraph.java:32-35 | the entries are emptied and the canvas is the grid alone |
| NameSurferGraph.Graph.AddEntry | src/NameSurferGraph.java:42-45 | the entry is appended after the earlier ones, which keep their order, and the canvas is the display of the new list |
| NameSurferGraph.Graph.Update | src/NameSurferGraph.java:52-58 | the canvas is emptied and rebuilt as the display of the current entries and size |
| NameSurferGraph.Graph.MakeGrid | src/NameSurferGraph.java:183-205 | the grid is appended to the canvas |
| NameSurferGraph.Graph.GridDecade | src/NameSurferGraph.java:188-196 | the body of `makeGrid`'s loop appends boundary line i (unless i is the last decade), then the label of decade i - 1 |
| NameSurferGraph.Graph.DrawGraphs | src/NameSurferGraph.java:89-115 | the series of every entry, in order, are appended to the canvas |
| NameSurferGraph.Graph.DrawSeries | src/NameSurferGraph.java:93-113 | the series of entry i is appended to the canvas |
| NameSurferGraph.Graph.ComponentResized | src/NameSurferGraph.java:214-216 | after a resize the canvas is the display for the new size, and the entries are unchanged |

## Left out

- File I/O. The constructor of `NameSurferDataBase` opens and reads a file. `DataBase.Load` takes
  the file's lines as a parameter.
- The `IOException` path. When the file cannot be read, the constructor prints the stack trace and
  keeps a partly filled map. This path is not modelled.
- `NameSurfer.java`. It is Swing and ACM widget wiring. Only its upper-casing of the query (line
  52) is modelled, as `DataBase.Search`. The `facePamphlet` programs are not part of this model.
- Rendering. The model does not cover drawing the canvas, removing objects from it, object
  identity, fonts or `java.awt.Color`. The canvas is a sequence of primitive values, and the
  colours are an enumeration.
- The `NameSurferGraph()` constructor's registration of the component listener, and the empty
  `componentHidden`, `componentMoved` and `componentShown` callbacks. Resize events are modelled
  as calls to `Graph.ComponentResized`.
- The constants NDECADES, MAX_RANK and GRAPH_MARGIN_SIZE, the font-dependent `year.getHeight()`
  and the component size are parameters rather than fixed values.
- NameSurferGraph.Graph.DrawSeries: `markScore` adds the point label, and `drawGraphs` then adds
  the same object again. Re-adding the object that is already on top leaves the canvas as it was,
  so the model puts the label on the canvas once.
- NameSurferGraph.Graph.GridDecade and NameSurferGraph.Graph.DrawSeries are the loop bodies of
  `makeGrid` and `drawGraphs`, split into their own methods. They are not separate methods in the
  source.
- NameSurferGraph.DrawLine, NameSurferGraph.MarkScore and NameSurferGraph.Graph.MakeGrid: the
  coordinate products such as `lineInterval * j` are Java `int` arithmetic. Their 32-bit overflow
  is not modelled, since it needs widths beyond any screen.
- NameSurferGraph.HeightRatio: `heightRatio` is a `double`. It is modelled as an exact `real`, so
  rounding of the y coordinates is not modelled.
- JavaText.ToUpper: `String.toUpperCase` is modelled on the ASCII letters only. Other Unicode
  letters and locale-specific case mappings are not modelled.
- JavaText.ParseInt: `Integer.parseInt` also accepts non-ASCII Unicode decimal digits. The model
  accepts ASCII digits only.
