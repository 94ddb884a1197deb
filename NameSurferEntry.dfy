/**
 * One record of the name-popularity data: a name and its rank in each of the decades covered by
 * the data file. A rank of 0 means the name was not ranked in that decade.
 */
module NameSurferEntry {
  import opened Wrappers
  import opened JavaText

  /** A parsed data line; `rank[d]` is the rank in the decade `d` decades after the first one. */
  datatype Entry = Entry(name: string, rank: seq<int>) {
    /** getName(): the name as it appears in the data file. */
    function GetName(): string {
      name
    }

    /** getRank(decade): the stored rank, the 0 sentinel included. */
    function GetRank(decade: int): int
      requires 0 <= decade < |rank|
    {
      rank[decade]
    }

    /** toString(): the name, a space, and the ranks as Arrays.toString prints an int[]. */
    function ToString(): string {
      name + " " + "[" + Join(Numerals(rank), ", ") + "]"
    }
  }

  /** The decimal numerals of a sequence of ints. */
  function Numerals(ranks: seq<int>): (r: seq<string>)
    ensures |r| == |ranks|
    ensures forall k :: 0 <= k < |r| ==> r[k] == IntToString(ranks[k])
  {
    seq(|ranks|, k requires 0 <= k < |ranks| => IntToString(ranks[k]))
  }

  // ---------------------------------------------------------------------------------------------
  // The accepted line format

  /**
   * The pieces of `s[from..]` between single spaces, in order, each found by searching for the
   * next space from the current position; two adjacent spaces give an empty piece.
   */
  function SplitFrom(s: string, from: nat): (toks: seq<string>)
    requires from <= |s|
    ensures |toks| >= 1
    decreases |s| - from
  {
    var k := IndexOf(s, ' ', from);
    if k < 0 then [s[from..]] else [s[from..k]] + SplitFrom(s, k + 1)
  }

  /** The pieces of the whole of `s`. */
  function Split(s: string): seq<string> {
    SplitFrom(s, 0)
  }

  /** The piece from `from` up to the next space (or the end) holds no space. */
  lemma PieceSpaceFree(s: string, from: nat, to: nat)
    requires from <= to <= |s|
    requires to == if IndexOf(s, ' ', from) < 0 then |s| else IndexOf(s, ' ', from)
    ensures ' ' !in s[from..to]
  {
    forall j | 0 <= j < to - from ensures s[from..to][j] != ' ' {
      IndexOfFirstOccurrence(s, ' ', from, from + j);
    }
  }

  /** A space-free piece in front of space-free pieces. */
  lemma SpaceFreeCons(toks: seq<string>, p: string, rest: seq<string>)
    requires toks == [p] + rest && ' ' !in p
    requires forall k :: 0 <= k < |rest| ==> ' ' !in rest[k]
    ensures forall k :: 0 <= k < |toks| ==> ' ' !in toks[k]
  {
    forall k | 0 <= k < |toks| ensures ' ' !in toks[k] {
      if k > 0 {
        assert toks[k] == rest[k - 1];
      }
    }
  }

  /** No piece holds a space. */
  lemma {:induction false} SplitFromSpaceFree(s: string, from: nat)
    requires from <= |s|
    ensures forall k :: 0 <= k < |SplitFrom(s, from)| ==> ' ' !in SplitFrom(s, from)[k]
    decreases |s| - from
  {
    var i := IndexOf(s, ' ', from);
    var toks := SplitFrom(s, from);
    if i < 0 {
      PieceSpaceFree(s, from, |s|);
      SpaceFreeCons(toks, s[from..], []);
    } else {
      SplitFromSpaceFree(s, i + 1);
      PieceSpaceFree(s, from, i);
      SpaceFreeCons(toks, s[from..i], SplitFrom(s, i + 1));
    }
  }

  lemma SplitSpaceFree(s: string)
    ensures forall k :: 0 <= k < |Split(s)| ==> ' ' !in Split(s)[k]
  {
    SplitFromSpaceFree(s, 0);
  }

  /** Joining the pieces with single spaces gives back the text they were cut from. */
  lemma {:induction false} JoinSplitFrom(s: string, from: nat)
    requires from <= |s|
    ensures Join(SplitFrom(s, from), " ") == s[from..]
    decreases |s| - from
  {
    var k := IndexOf(s, ' ', from);
    if k >= 0 {
      var rest := SplitFrom(s, k + 1);
      JoinSplitFrom(s, k + 1);
      assert ([s[from..k]] + rest)[1..] == rest;
      assert s[from..] == s[from..k] + " " + s[k + 1..];
    }
  }

  lemma JoinSplit(s: string)
    ensures Join(Split(s), " ") == s
  {
    JoinSplitFrom(s, 0);
  }

  /** The ints a list of tokens denotes, read left to right; None when some token is not an int. */
  function ParseInts(toks: seq<string>): (r: Option<seq<int>>)
    ensures r.Some? ==> |r.value| == |toks|
    decreases |toks|
  {
    if toks == [] then Some([])
    else
      match ParseInts(toks[..|toks| - 1])
      case None => None
      case Some(vals) =>
        match ParseInt(toks[|toks| - 1])
        case None => None
        case Some(v) => Some(vals + [v])
  }

  /** Reading one more token. */
  lemma ParseIntsSnoc(toks: seq<string>, vals: seq<int>, t: string, v: int)
    requires ParseInts(toks) == Some(vals) && ParseInt(t) == Some(v)
    ensures ParseInts(toks + [t]) == Some(vals + [v])
  {
    assert (toks + [t])[..|toks|] == toks;
  }

  /** When the tokens denote some ints, each token denotes the int at its position. */
  lemma {:induction false} ParseIntsSome(toks: seq<string>, vals: seq<int>)
    requires ParseInts(toks) == Some(vals)
    ensures forall k :: 0 <= k < |toks| ==> ParseInt(toks[k]) == Some(vals[k])
    decreases |toks|
  {
    if toks != [] {
      var front := toks[..|toks| - 1];
      var fv := ParseInts(front).value;
      ParseIntsSome(front, fv);
      assert vals == fv + [vals[|vals| - 1]];
      forall k | 0 <= k < |toks| - 1 ensures ParseInt(toks[k]) == Some(vals[k]) {
        assert toks[k] == front[k];
      }
    }
  }

  /** One token that is not an int makes the whole list fail. */
  lemma {:induction false} ParseIntsNone(toks: seq<string>, k: nat)
    requires k < |toks| && ParseInt(toks[k]).None?
    ensures ParseInts(toks) == None
    decreases |toks|
  {
    if k < |toks| - 1 {
      var front := toks[..|toks| - 1];
      assert front[k] == toks[k];
      ParseIntsNone(front, k);
    }
  }

  /**
   * What NameSurferEntry(line) accepts, for `n` decades: a name and exactly `n` int tokens, all
   * separated by single spaces (so at least one rank and no empty rank token). Any other line
   * makes the constructor throw, which is None here.
   */
  function ParseLine(line: string, n: nat): (r: Option<Entry>)
    ensures r.Some? ==> n >= 1 && |r.value.rank| == n
    ensures r.Some? ==> forall k :: 0 <= k < n ==> InIntRange(r.value.rank[k])
    ensures r.Some? ==> ' ' !in r.value.name
    ensures r.Some? ==> IndexOf(line, ' ', 0) == |r.value.name| && line[..|r.value.name|] == r.value.name
  {
    var toks := Split(line);
    SplitSpaceFree(line);
    if n >= 1 && |toks| == n + 1 then
      match ParseInts(toks[1..])
      case Some(ranks) =>
        ParseIntsSome(toks[1..], ranks);
        Some(Entry(toks[0], ranks))
      case None => None
    else
      None
  }

  /** The data-file line for a name and its ranks: all tokens separated by single spaces. */
  function DataLine(name: string, ranks: seq<int>): string {
    Join([name] + Numerals(ranks), " ")
  }

  // ---------------------------------------------------------------------------------------------
  // The constructor

  /** The line has been read up to `start`: `name` and the tokens in `done` come first. */
  ghost predicate Scanned(line: string, name: string, done: seq<string>, start: nat) {
    start <= |line| && Split(line) == [name] + done + SplitFrom(line, start)
  }

  /** A line without a space is rejected. */
  lemma NoSpaceRejected(line: string, n: nat)
    requires IndexOf(line, ' ', 0) < 0
    ensures ParseLine(line, n) == None
  {
    assert |Split(line)| == 1;
  }

  /** The name is the text before the first space. */
  lemma ScanStart(line: string, first: int)
    requires first == IndexOf(line, ' ', 0) && first >= 0
    ensures Scanned(line, line[..first], [], first + 1)
  {
    assert line[0..first] == line[..first];
  }

  /** Reading the token up to the next space. */
  lemma ScanStep(line: string, name: string, done: seq<string>, start: nat, end: int)
    requires Scanned(line, name, done, start)
    requires end == IndexOf(line, ' ', start) && end >= 0
    ensures Scanned(line, name, done + [line[start..end]], end + 1)
  {
    assert [name] + done + ([line[start..end]] + SplitFrom(line, end + 1))
        == [name] + (done + [line[start..end]]) + SplitFrom(line, end + 1);
  }

  /** No space is left before all n - 1 leading ranks are read: too few tokens. */
  lemma ScanTooFew(line: string, n: nat, name: string, done: seq<string>, start: nat)
    requires Scanned(line, name, done, start) && IndexOf(line, ' ', start) < 0
    requires |done| < n - 1
    ensures ParseLine(line, n) == None
  {
    assert |Split(line)| == |done| + 2;
  }

  /** A token parseInt refuses. */
  lemma ScanBadToken(line: string, n: nat, name: string, done: seq<string>, start: nat, end: int)
    requires Scanned(line, name, done, start)
    requires end == IndexOf(line, ' ', start) && end >= 0
    requires |done| < n && ParseInt(line[start..end]).None?
    ensures ParseLine(line, n) == None
  {
    var toks := Split(line);
    if |toks| == n + 1 {
      assert toks[1..][|done|] == line[start..end];
      ParseIntsNone(toks[1..], |done|);
    }
  }

  /** The remainder of the line after n - 1 ranks is not an int. */
  lemma ScanBadLast(line: string, n: nat, name: string, done: seq<string>, start: nat)
    requires Scanned(line, name, done, start)
    requires n >= 1 && |done| == n - 1 && ParseInt(line[start..]).None?
    ensures ParseLine(line, n) == None
  {
    var end := IndexOf(line, ' ', start);
    if end < 0 {
      assert Split(line)[1..][n - 1] == line[start..];
      ParseIntsNone(Split(line)[1..], n - 1);
    } else {
      assert |Split(line)| >= n + 2;
    }
  }

  /** The rest of the line from `start` on holds no space: it is the last piece. */
  lemma NoSpaceLeft(line: string, start: nat)
    requires start <= |line| && ' ' !in line[start..]
    ensures IndexOf(line, ' ', start) < 0
    ensures SplitFrom(line, start) == [line[start..]]
  {
    IndexOfAbsent(line[start..], ' ');
    IndexOfSuffix(line, ' ', start);
  }

  /** A line whose pieces are a name and n int tokens is accepted. */
  lemma AcceptedLine(line: string, n: nat, name: string, toks: seq<string>, ranks: seq<int>)
    requires Split(line) == [name] + toks && n >= 1 && |toks| == n
    requires ParseInts(toks) == Some(ranks)
    ensures ParseLine(line, n) == Some(Entry(name, ranks))
  {
    assert ([name] + toks)[1..] == toks;
  }

  /** The remainder of the line after n - 1 ranks is the last rank. */
  lemma ScanComplete(line: string, n: nat, name: string, done: seq<string>, start: nat, ranks: seq<int>)
    requires Scanned(line, name, done, start)
    requires n >= 1 && |done| == n - 1 && |ranks| == n
    requires ParseInts(done) == Some(ranks[..n - 1])
    requires ParseInt(line[start..]) == Some(ranks[n - 1])
    ensures ParseLine(line, n) == Some(Entry(name, ranks))
  {
    var last := line[start..];
    ParseIntSpaceFree(last);
    NoSpaceLeft(line, start);
    AppendAssoc([name], done, [last]);
    SnocSplit(ranks);
    ParseIntsSnoc(done, ranks[..n - 1], last, ranks[n - 1]);
    AcceptedLine(line, n, name, done + [last], ranks);
  }

  // ---------------------------------------------------------------------------------------------
  // Properties

  /** Cutting a space-joined list of space-free tokens at its spaces gives the tokens back. */
  lemma SplitJoin(parts: seq<string>)
    requires |parts| >= 1 && Separable(parts, " ")
    ensures Split(Join(parts, " ")) == parts
  {
    var s := Join(parts, " ");
    JoinSplit(s);
    SplitSpaceFree(s);
    JoinInjective(Split(s), parts, " ");
  }

  lemma NumeralsSeparable(ranks: seq<int>, c: char)
    requires c != '-' && !IsDigit(c)
    ensures forall k :: 0 <= k < |ranks| ==> c !in Numerals(ranks)[k]
  {
    forall k | 0 <= k < |ranks| ensures c !in Numerals(ranks)[k] {
      IntToStringShape(ranks[k]);
    }
  }

  lemma NumeralsPrefix(ranks: seq<int>, m: nat)
    requires m <= |ranks|
    ensures Numerals(ranks)[..m] == Numerals(ranks[..m])
  {
  }

  /** The numerals of Java ints read back as those ints. */
  lemma {:induction false} ParseIntsNumerals(ranks: seq<int>)
    requires forall k :: 0 <= k < |ranks| ==> InIntRange(ranks[k])
    ensures ParseInts(Numerals(ranks)) == Some(ranks)
    decreases |ranks|
  {
    if ranks != [] {
      var nums, m := Numerals(ranks), |ranks| - 1;
      var front := ranks[..m];
      NumeralsPrefix(ranks, m);
      ParseIntsNumerals(front);
      ParseIntToString(ranks[m]);
      ParseIntsSnoc(nums[..m], front, nums[m], ranks[m]);
      SnocSplit(nums);
      SnocSplit(ranks);
    }
  }

  /**
   * Round trip with the data-file format: the line written for a space-free name and n Java ints
   * parses back to exactly that name and those ranks, read through getName and getRank.
   */
  lemma ParseDataLine(name: string, ranks: seq<int>)
    requires ' ' !in name && |ranks| >= 1
    requires forall k :: 0 <= k < |ranks| ==> InIntRange(ranks[k])
    ensures ParseLine(DataLine(name, ranks), |ranks|) == Some(Entry(name, ranks))
    ensures ParseLine(DataLine(name, ranks), |ranks|).value.GetName() == name
    ensures forall k :: 0 <= k < |ranks| ==> ParseLine(DataLine(name, ranks), |ranks|).value.GetRank(k) == ranks[k]
  {
    var nums := Numerals(ranks);
    var parts := [name] + nums;
    NumeralsSeparable(ranks, ' ');
    assert Separable(parts, " ") by {
      forall k | 0 <= k < |parts| ensures ' ' !in parts[k] {
        if k > 0 { assert parts[k] == nums[k - 1]; }
      }
    }
    SplitJoin(parts);
    var toks := Split(DataLine(name, ranks));
    assert toks[1..] == nums;
    ParseIntsNumerals(ranks);
  }

  lemma ToStringShape(e: Entry)
    ensures e.ToString() == e.name + [' '] + ("[" + Join(Numerals(e.rank), ", ") + "]")
  {
  }

  /** Two strings cut at their first space agree in both halves. */
  lemma FirstSpaceCut(x: string, p: string, y: string, q: string)
    requires ' ' !in x && ' ' !in y
    requires x + [' '] + p == y + [' '] + q
    ensures x == y && p == q
  {
    var s := x + [' '] + p;
    IndexOfFirst(x, ' ', p);
    IndexOfFirst(y, ' ', q);
    assert x == s[..|x|] == y;
    assert p == s[|x| + 1..] == q;
  }

  lemma Unbracket(p: string, q: string)
    requires "[" + p + "]" == "[" + q + "]"
    ensures p == q
  {
    var s := "[" + p + "]";
    assert p == s[1..|s| - 1] == q;
  }

  /** Ints with the same numerals are the same ints. */
  lemma NumeralsInjective(a: seq<int>, b: seq<int>)
    requires Numerals(a) == Numerals(b)
    ensures a == b
  {
    forall k | 0 <= k < |a| ensures a[k] == b[k] {
      assert Numerals(a)[k] == Numerals(b)[k];
      IntToStringInjective(a[k], b[k]);
    }
  }

  /** toString tells entries apart: entries with space-free names and some rank print differently. */
  lemma ToStringInjective(a: Entry, b: Entry)
    requires ' ' !in a.name && ' ' !in b.name && |a.rank| >= 1 && |b.rank| >= 1
    requires a.ToString() == b.ToString()
    ensures a == b
  {
    var na, nb := Numerals(a.rank), Numerals(b.rank);
    var ja, jb := Join(na, ", "), Join(nb, ", ");
    ToStringShape(a);
    ToStringShape(b);
    FirstSpaceCut(a.name, "[" + ja + "]", b.name, "[" + jb + "]");
    Unbracket(ja, jb);
    NumeralsSeparable(a.rank, ',');
    NumeralsSeparable(b.rank, ',');
    JoinInjective(na, nb, ", ");
    NumeralsInjective(a.rank, b.rank);
  }
}

/** The constructor NameSurferEntry(String line), as the loop the source runs over the line. */
module NameSurferEntryReader {
  import opened Wrappers
  import opened JavaText
  import opened NameSurferEntry

  /** Storing the next rank extends the filled prefix of the array by it. */
  lemma StoreNext(before: seq<int>, after: seq<int>, vals: seq<int>, i: nat, v: int)
    requires i < |before| && after == before[i := v] && before[..i] == vals
    ensures after[..i + 1] == vals + [v]
  {
  }

  /**
   * NameSurferEntry(String line): takes the name up to the first space, then reads the ranks of
   * the first n - 1 decades one token at a time, moving `start` and `end` from space to space,
   * and the last rank from the remainder of the line; each goes into the rank array in place.
   * Every exception the constructor can raise (a missing space, a token parseInt refuses, an
   * empty rank array) is None.
   */
  method ParseEntry(line: string, n: nat) returns (r: Option<Entry>)
    ensures r == ParseLine(line, n)
  {
    var first := IndexOf(line, ' ', 0);
    if first < 0 {
      // line.substring(0, -1) throws
      NoSpaceRejected(line, n);
      return None;
    }
    var name := line[..first];
    var rank := new int[n];
    var start: nat := first + 1;
    var end := IndexOf(line, ' ', start);
    ghost var done: seq<string> := [];
    ghost var vals: seq<int> := [];
    ScanStart(line, first);
    var i := 0;
    while i < rank.Length - 1
      invariant 0 <= i && (i <= n - 1 || i == 0)
      invariant end == IndexOf(line, ' ', start)
      invariant |done| == i
      invariant Scanned(line, name, done, start)
      invariant rank[..i] == vals
      invariant ParseInts(done) == Some(vals)
    {
      if end < 0 {
        // line.substring(start, -1) throws: the line has fewer than n + 1 tokens
        ScanTooFew(line, n, name, done, start);
        return None;
      }
      var score := ParseInt(line[start..end]);
      if score.None? {
        ScanBadToken(line, n, name, done, start, end);
        return None;
      }
      ghost var before := rank[..];
      rank[i] := score.value;
      StoreNext(before, rank[..], vals, i, score.value);
      ScanStep(line, name, done, start, end);
      ParseIntsSnoc(done, vals, line[start..end], score.value);
      done := done + [line[start..end]];
      vals := vals + [score.value];
      start := end + 1;
      end := IndexOf(line, ' ', start);
      i := i + 1;
    }
    if rank.Length == 0 {
      // rank[rank.length - 1] is out of bounds
      return None;
    }
    var last := ParseInt(line[start..]);
    if last.None? {
      ScanBadLast(line, n, name, done, start);
      return None;
    }
    rank[n - 1] := last.value;
    // The rank array was allocated with n elements, so the Java constructor's length check
    // (`rank.length != NDECADES`) never throws.
    assert rank[..n - 1] == vals;
    ScanComplete(line, n, name, done, start, rank[..]);
    return Some(Entry(name, rank[..]));
  }
}
