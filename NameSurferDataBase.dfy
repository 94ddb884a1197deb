/**
 * The database of names: a table from the upper-cased name of each data line to the line itself,
 * built from the lines of the data file in order, and the lookup that parses the stored line again.
 */
module NameSurferDataBase {
  import opened Wrappers
  import opened JavaText
  import opened NameSurferEntry
  import opened NameSurferEntryReader

  /** The key an entry is filed under: its name, upper-cased. */
  function KeyOf(e: Entry): string {
    ToUpper(e.GetName())
  }

  /** The key of a data line with `n` decades, or None when the line does not parse. */
  function LineKey(line: string, n: nat): Option<string> {
    match ParseLine(line, n)
    case Some(e) => Some(KeyOf(e))
    case None => None
  }

  /**
   * The records after the constructor has read `lines`: each line in turn is put under its key,
   * replacing what an earlier line with the same key left there. The first line that does not parse
   * raises an exception the constructor does not catch, so no table is built: None.
   */
  function Table(lines: seq<string>, n: nat): Option<map<string, string>>
    decreases |lines|
  {
    if lines == [] then Some(map[])
    else
      match Table(lines[..|lines| - 1], n)
      case None => None
      case Some(m) =>
        match ParseLine(lines[|lines| - 1], n)
        case None => None
        case Some(e) => Some(m[KeyOf(e) := lines[|lines| - 1]])
  }

  /** Every stored line parses, with `n` decades, to an entry filed under the key it is stored at. */
  ghost predicate Stored(records: map<string, string>, n: nat) {
    forall key :: key in records ==> LineKey(records[key], n) == Some(key)
  }

  /** Line `k` has key `key` and no later line has it. */
  ghost predicate LastWithKey(lines: seq<string>, n: nat, key: string, k: int) {
    0 <= k < |lines| && LineKey(lines[k], n) == Some(key)
    && forall j :: k < j < |lines| ==> LineKey(lines[j], n) != Some(key)
  }

  // ---------------------------------------------------------------------------------------------
  // The table built from the lines

  /** One more line read. */
  lemma TableSnoc(lines: seq<string>, n: nat, line: string)
    ensures Table(lines + [line], n) ==
      match Table(lines, n)
      case None => None
      case Some(m) =>
        match ParseLine(line, n)
        case None => None
        case Some(e) => Some(m[KeyOf(e) := line])
  {
    assert (lines + [line])[..|lines|] == lines;
  }

  /** Loading succeeds exactly when every line parses. */
  lemma {:induction false} TableSomeIff(lines: seq<string>, n: nat)
    ensures Table(lines, n).Some? <==> forall k :: 0 <= k < |lines| ==> ParseLine(lines[k], n).Some?
    decreases |lines|
  {
    if lines != [] {
      var front := lines[..|lines| - 1];
      TableSomeIff(front, n);
      assert forall k :: 0 <= k < |front| ==> front[k] == lines[k];
    }
  }

  /** The table holds only lines that parse under the key they are stored at. */
  lemma {:induction false} TableStored(lines: seq<string>, n: nat)
    requires Table(lines, n).Some?
    ensures Stored(Table(lines, n).value, n)
    decreases |lines|
  {
    if lines != [] {
      TableStored(lines[..|lines| - 1], n);
    }
  }

  /** Last write wins: a line no later line shares a key with is the one stored under its key. */
  lemma {:induction false} TableLastWins(lines: seq<string>, n: nat, k: nat)
    requires Table(lines, n).Some? && k < |lines|
    requires forall j :: k < j < |lines| ==> LineKey(lines[j], n) != LineKey(lines[k], n)
    ensures LineKey(lines[k], n).Some?
    ensures LineKey(lines[k], n).value in Table(lines, n).value
    ensures Table(lines, n).value[LineKey(lines[k], n).value] == lines[k]
    decreases |lines|
  {
    var front, last := lines[..|lines| - 1], lines[|lines| - 1];
    if k < |lines| - 1 {
      forall j | k < j < |front| ensures LineKey(front[j], n) != LineKey(front[k], n) {
        assert front[j] == lines[j];
      }
      TableLastWins(front, n, k);
      assert front[k] == lines[k];
    }
  }

  /** Every key in the table comes from a line, the last line with that key, stored unchanged. */
  lemma {:induction false} TableOrigin(lines: seq<string>, n: nat, key: string)
    requires Table(lines, n).Some? && key in Table(lines, n).value
    ensures exists k :: LastWithKey(lines, n, key, k) && Table(lines, n).value[key] == lines[k]
    decreases |lines|
  {
    var front, last := lines[..|lines| - 1], lines[|lines| - 1];
    var k := |lines| - 1;
    if LineKey(last, n) != Some(key) {
      TableOrigin(front, n, key);
      var k' :| LastWithKey(front, n, key, k') && Table(front, n).value[key] == front[k'];
      assert front[k'] == lines[k'];
      forall j | k' < j < |lines| ensures LineKey(lines[j], n) != Some(key) {
        if j < |front| { assert front[j] == lines[j]; }
      }
      k := k';
    }
    assert LastWithKey(lines, n, key, k) && Table(lines, n).value[key] == lines[k];
  }

  /** A key no line has is not in the table. */
  lemma TableMiss(lines: seq<string>, n: nat, key: string)
    requires Table(lines, n).Some?
    requires forall k :: 0 <= k < |lines| ==> LineKey(lines[k], n) != Some(key)
    ensures key !in Table(lines, n).value
  {
    if key in Table(lines, n).value {
      TableOrigin(lines, n, key);
    }
  }

  // ---------------------------------------------------------------------------------------------
  // Lookup

  /** findEntry on a table: the entry parsed from the line stored under exactly `name`, or null. */
  function Find(records: map<string, string>, name: string, n: nat): Option<Entry> {
    if name in records then ParseLine(records[name], n) else None
  }

  /** A stored key is its own upper case. */
  lemma StoredKeyUpper(records: map<string, string>, n: nat, key: string)
    requires Stored(records, n) && key in records
    ensures ToUpper(key) == key
  {
    var e := ParseLine(records[key], n).value;
    ToUpperIdempotent(e.name);
  }

  /** findEntry hits exactly the stored keys, and a hit is filed under the key it was looked up by. */
  lemma FindStored(records: map<string, string>, n: nat, name: string)
    requires Stored(records, n)
    ensures Find(records, name, n).Some? <==> name in records
    ensures Find(records, name, n).Some? ==> KeyOf(Find(records, name, n).value) == name
  {
  }

  /**
   * After loading, looking up the upper case of any spelling of a name finds the entry of the file's
   * last line with that name, with the name spelled as in that line.
   */
  lemma FindLoaded(lines: seq<string>, n: nat, k: nat, query: string)
    requires Table(lines, n).Some? && k < |lines|
    requires forall j :: k < j < |lines| ==> LineKey(lines[j], n) != LineKey(lines[k], n)
    requires Some(ToUpper(query)) == LineKey(lines[k], n)
    ensures Find(Table(lines, n).value, ToUpper(query), n) == ParseLine(lines[k], n)
    ensures Find(Table(lines, n).value, ToUpper(query), n).value.GetName() == ParseLine(lines[k], n).value.name
  {
    TableLastWins(lines, n, k);
  }

  /** After loading, a query whose upper case is the key of no line finds nothing. */
  lemma FindAbsent(lines: seq<string>, n: nat, query: string)
    requires Table(lines, n).Some?
    requires forall k :: 0 <= k < |lines| ==> LineKey(lines[k], n) != Some(ToUpper(query))
    ensures Find(Table(lines, n).value, ToUpper(query), n) == None
  {
    TableMiss(lines, n, ToUpper(query));
  }

  // ---------------------------------------------------------------------------------------------
  // The object

  /** NameSurferDataBase: the records map, for data lines with `decades` ranks each. */
  class DataBase {
    const decades: nat
    var records: map<string, string>

    ghost predicate Valid()
      reads this
    {
      Stored(records, decades)
    }

    /** A database with no records yet. */
    constructor Empty(decades: nat)
      ensures this.decades == decades && records == map[]
      ensures Valid()
    {
      this.decades := decades;
      records := map[];
    }

    /**
     * NameSurferDataBase(filename) on a file holding `lines`: each line is parsed and put under its
     * upper-cased name. A line that does not parse makes the constructor throw: None.
     */
    static method Load(lines: seq<string>, decades: nat) returns (r: Option<DataBase>)
      ensures r.Some? <==> Table(lines, decades).Some?
      ensures r.Some? ==> fresh(r.value) && r.value.decades == decades
      ensures r.Some? ==> r.value.records == Table(lines, decades).value && r.value.Valid()
    {
      var db := new DataBase.Empty(decades);
      var i := 0;
      while i < |lines|
        invariant 0 <= i <= |lines|
        invariant db.decades == decades
        invariant Table(lines[..i], decades) == Some(db.records)
      {
        var line := lines[i];
        var ns := ParseEntry(line, decades);
        if ns.None? {
          TableSnoc(lines[..i], decades, line);
          TableSomeIff(lines[..i + 1], decades);
          TableSomeIff(lines, decades);
          assert lines[..i + 1][i] == line;
          return None;
        }
        var name := ToUpper(ns.value.GetName());
        TableSnoc(lines[..i], decades, line);
        assert lines[..i] + [line] == lines[..i + 1];
        db.records := db.records[name := line];
        i := i + 1;
      }
      assert lines[..i] == lines;
      TableStored(lines, decades);
      return Some(db);
    }

    /** findEntry(name): the entry parsed afresh from the line stored under exactly `name`, or null. */
    method FindEntry(name: string) returns (r: Option<Entry>)
      requires Valid()
      ensures r == Find(records, name, decades)
      ensures r.Some? <==> name in records
      ensures r.Some? ==> KeyOf(r.value) == name
    {
      FindStored(records, decades, name);
      if name in records {
        r := ParseEntry(records[name], decades);
        return r;
      }
      return None;
    }

    /** The Graph button's lookup: the query upper-cased, then findEntry. */
    method Search(text: string) returns (r: Option<Entry>)
      requires Valid()
      ensures r == Find(records, ToUpper(text), decades)
    {
      r := FindEntry(ToUpper(text));
    }
  }
}
