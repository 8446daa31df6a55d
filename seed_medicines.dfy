/** The catalogue seeder (seed_medicines.py): every CSV row is cleaned into a medicine record
    (price parsed or 0, side effects split on commas, the two composition parts joined, the
    discontinued flag read), rows whose cleaned name is empty are dropped, and, when any
    record remains, the collection is cleared and the records are inserted in batches of
    1000. The CSV reader and `float()` are foreign: rows arrive as maps from column to cell,
    and the number parser is a parameter. */
module SeedMedicines {
  import opened Wrappers
  import opened Text

  /** A cell once NaN has been replaced by None: null, or the text `str()` gives of it. */
  datatype Cell = Null | Value(text: string)

  /** A row: the columns the file has, each with its cell. */
  type Row = map<string, Cell>

  /** The document written for a row; the two timestamps are left out. */
  datatype SeedRecord = SeedRecord(
    name: string,
    price: real,
    manufacturer: string,
    kind: string,
    packSize: string,
    composition: string,
    description: string,
    sideEffects: seq<string>,
    isDiscontinued: bool)

  const BatchSize := 1000

  /** `row.get(key, default)`. */
  function Get(row: Row, key: string, default: Cell): Cell {
    if key in row then row[key] else default
  }

  /** `str(cell)`: None prints as "None". */
  function Str(c: Cell): string {
    match c
    case Null => "None"
    case Value(t) => t
  }

  /** `str(row.get(key, '')).strip()`. */
  function Field(row: Row, key: string): string {
    Trim(Str(Get(row, key, Value(""))))
  }

  /** The price: 0 for a missing column, for None (which `float` refuses) and for text the
      parser refuses; otherwise the parsed number. */
  function Price(row: Row, parse: string -> Option<real>): (p: real)
    ensures "price" in row && row["price"].Value? && parse(row["price"].text).Some? ==> p == parse(row["price"].text).value
    ensures !("price" in row && row["price"].Value? && parse(row["price"].text).Some?) ==> p == 0.0
  {
    match Get(row, "price", Value("0"))
    case Null => 0.0
    case Value(t) => if "price" !in row then 0.0 else parse(t).GetOr(0.0)
  }

  /** The side effects: none for a missing, null or empty cell; otherwise the comma-separated
      pieces, each stripped. */
  function SideEffects(row: Row): (effects: seq<string>)
    ensures var c := Get(row, "side_effects", Null);
      && (effects == [] <==> c.Null? || c.text == "")
      && (c.Value? && c.text != "" ==> |effects| == |Split(c.text, ',')|)
      && (forall i :: 0 <= i < |effects| ==> ',' !in effects[i] && effects[i] == Trim(effects[i]))
      && (c.Value? && c.text != "" ==> forall i :: 0 <= i < |effects| ==> effects[i] == Trim(Split(c.text, ',')[i]))
  {
    var c := Get(row, "side_effects", Null);
    if c.Null? || c.text == "" then []
    else
      var pieces := Split(c.text, ',');
      var effects := seq(|pieces|, i requires 0 <= i < |pieces| => Trim(pieces[i]));
      forall i | 0 <= i < |effects|
        ensures ',' !in effects[i] && effects[i] == Trim(effects[i])
      {
        TrimIsInside(pieces[i]);
        TrimIdempotent(pieces[i]);
      }
      effects
  }

  /** Trimming keeps only characters of the string. */
  lemma TrimIsInside(s: string)
    ensures forall c :: c in Trim(s) ==> c in s
  {
    TrimShape(s);
    var k := |s| - |TrimStart(s)|;
    forall c | c in Trim(s)
      ensures c in s
    {
      var i :| 0 <= i < |Trim(s)| && Trim(s)[i] == c;
      assert s[k + i] == c;
    }
  }

  /** The two short-composition parts, stripped, joined by a space, stripped again. */
  function Composition(row: Row): string {
    Trim(Field(row, "short_composition1") + " " + Field(row, "short_composition2"))
  }

  /** The discontinued flag: the cell upper-cased is "TRUE"; a missing column reads "FALSE". */
  function Discontinued(row: Row): bool {
    Upper(Str(Get(row, "Is_discontinued", Value("FALSE")))) == "TRUE"
  }

  /** The per-row transform. */
  function Transform(row: Row, parse: string -> Option<real>): SeedRecord {
    SeedRecord(Field(row, "name"), Price(row, parse), Field(row, "manufacturer_name"), Field(row, "type"),
               Field(row, "pack_size_label"), Composition(row), Field(row, "medicine_desc"),
               SideEffects(row), Discontinued(row))
  }

  /** Every row cleaned, in row order. */
  function Cleaned(rows: seq<Row>, parse: string -> Option<real>): (recs: seq<SeedRecord>)
    ensures |recs| == |rows|
    ensures forall k :: 0 <= k < |rows| ==> recs[k] == Transform(rows[k], parse)
  {
    seq(|rows|, k requires 0 <= k < |rows| => Transform(rows[k], parse))
  }

  /** The records with a non-empty name, in order. */
  function Named(recs: seq<SeedRecord>): (r: seq<SeedRecord>)
    ensures |r| <= |recs|
    ensures forall k :: 0 <= k < |r| ==> r[k].name != []
    ensures forall x :: x in r <==> x in recs && x.name != []
  {
    if recs == [] then []
    else (if recs[0].name != [] then [recs[0]] else []) + Named(recs[1..])
  }

  /** The records kept from a sequence of rows: the cleaned rows with a non-empty name. */
  function Records(rows: seq<Row>, parse: string -> Option<real>): seq<SeedRecord> {
    Named(Cleaned(rows, parse))
  }

  lemma {:induction false} NamedAppend(a: seq<SeedRecord>, b: seq<SeedRecord>)
    ensures Named(a + b) == Named(a) + Named(b)
    decreases |a|
  {
    if a == [] {
      assert a + b == b;
    } else {
      assert (a + b)[0] == a[0];
      assert (a + b)[1..] == a[1..] + b;
      NamedAppend(a[1..], b);
      var head := if a[0].name != [] then [a[0]] else [];
      assert Named(a + b) == head + (Named(a[1..]) + Named(b));
    }
  }

  /** Rows are cleaned independently: the records of two runs of rows are the records of each
      in turn. */
  lemma RecordsAppend(a: seq<Row>, b: seq<Row>, parse: string -> Option<real>)
    ensures Records(a + b, parse) == Records(a, parse) + Records(b, parse)
  {
    assert Cleaned(a + b, parse) == Cleaned(a, parse) + Cleaned(b, parse);
    NamedAppend(Cleaned(a, parse), Cleaned(b, parse));
  }

  /** A row is kept exactly when its stripped name is non-empty, and it is kept as the
      transform makes it. */
  lemma KeptIffNamed(row: Row, parse: string -> Option<real>)
    ensures Records([row], parse) == if Transform(row, parse).name != [] then [Transform(row, parse)] else []
    ensures Transform(row, parse).name == Field(row, "name")
  {
    assert Cleaned([row], parse) == [Transform(row, parse)];
  }

  /** A null name prints as "None" and so is kept; a blank one is dropped. */
  lemma NullNameKept(row: Row, parse: string -> Option<real>)
    requires "name" in row && row["name"] == Null
    ensures Records([row], parse) == [Transform(row, parse)] && Transform(row, parse).name == "None"
  {
    KeptIffNamed(row, parse);
    TrimUnpadded("None");
  }

  /** A side-effects cell holding two comma-free parts gives those two parts, stripped. */
  lemma TwoSideEffects(row: Row, a: string, b: string)
    requires ',' !in a && ',' !in b
    requires "side_effects" in row && row["side_effects"] == Value(a + [','] + b)
    ensures SideEffects(row) == [Trim(a), Trim(b)]
  {
    SplitAt(a, ',', b);
    SplitNone(b, ',');
  }

  /** A missing discontinued column, a null one and "false" read as false; "True" as true. */
  lemma DiscontinuedExamples()
    ensures !Discontinued(map[])
    ensures !Discontinued(map["Is_discontinued" := Null])
    ensures !Discontinued(map["Is_discontinued" := Value("false")])
    ensures Discontinued(map["Is_discontinued" := Value("True")])
  {
    assert Upper("FALSE")[1] == 'A';
    assert Upper("None")[1] == 'O';
    assert Upper("false")[1] == 'A';
    assert Upper("True") == "TRUE";
  }

  /** A composition with only its first part is that part, stripped. */
  lemma CompositionFirstOnly(row: Row)
    requires Field(row, "short_composition2") == []
    ensures Composition(row) == Field(row, "short_composition1")
  {
    var a := Field(row, "short_composition1");
    assert a + " " + Field(row, "short_composition2") == [] + a + " ";
    TrimPadded([], a, " ");
    TrimIdempotent(Str(Get(row, "short_composition1", Value(""))));
  }

  /** Consecutive slices of at most `BatchSize`: `s[i:i+1000]` for i = 0, 1000, ... */
  function Batches<T>(s: seq<T>): seq<seq<T>>
    decreases |s|
  {
    if s == [] then []
    else if |s| <= BatchSize then [s]
    else [s[..BatchSize]] + Batches(s[BatchSize..])
  }

  function Concat<T>(bs: seq<seq<T>>): seq<T> {
    if bs == [] then [] else bs[0] + Concat(bs[1..])
  }

  /** The batches put back together are the list, in order; each holds between 1 and 1000
      records, and all but the last exactly 1000. */
  lemma {:induction false} BatchesPartition<T>(s: seq<T>)
    ensures Concat(Batches(s)) == s
    ensures forall k :: 0 <= k < |Batches(s)| ==> 1 <= |Batches(s)[k]| <= BatchSize
    ensures forall k :: 0 <= k < |Batches(s)| - 1 ==> |Batches(s)[k]| == BatchSize
    decreases |s|
  {
    if |s| > BatchSize {
      BatchesPartition(s[BatchSize..]);
      var bs := Batches(s);
      assert bs[1..] == Batches(s[BatchSize..]);
      assert s == s[..BatchSize] + s[BatchSize..];
      forall k | 0 < k < |bs|
        ensures 1 <= |bs[k]| <= BatchSize
      {
        assert bs[k] == Batches(s[BatchSize..])[k - 1];
      }
      forall k | 0 < k < |bs| - 1
        ensures |bs[k]| == BatchSize
      {
        assert bs[k] == Batches(s[BatchSize..])[k - 1];
      }
    }
  }

  /** There are `(n - 1) // 1000 + 1` batches for `n` > 0 records, the count the seeder
      prints. */
  lemma {:induction false} BatchCount<T>(s: seq<T>)
    requires |s| > 0
    ensures |Batches(s)| == (|s| - 1) / BatchSize + 1
    decreases |s|
  {
    if |s| > BatchSize {
      BatchCount(s[BatchSize..]);
      assert (|s| - 1) / BatchSize == (|s| - BatchSize - 1) / BatchSize + 1;
    }
  }

  /** The medicines collection, with the batches `insert_many` was called with. */
  class Collection {
    var docs: seq<SeedRecord>
    var insertCalls: seq<seq<SeedRecord>>

    constructor (docs: seq<SeedRecord>)
      ensures this.docs == docs && insertCalls == []
    {
      this.docs := docs;
      insertCalls := [];
    }

    /** `delete_many({})`. */
    method DeleteMany()
      modifies this
      ensures docs == [] && insertCalls == old(insertCalls)
    {
      docs := [];
    }

    /** `insert_many(batch)`. */
    method InsertMany(batch: seq<SeedRecord>)
      modifies this
      ensures docs == old(docs) + batch && insertCalls == old(insertCalls) + [batch]
    {
      docs := docs + batch;
      insertCalls := insertCalls + [batch];
    }
  }

  /** The row loop: clean each row and keep the named ones. */
  method CollectRecords(rows: seq<Row>, parse: string -> Option<real>) returns (out: seq<SeedRecord>)
    ensures out == Records(rows, parse)
  {
    out := [];
    var i := 0;
    while i < |rows|
      invariant 0 <= i <= |rows|
      invariant out == Records(rows[..i], parse)
    {
      assert rows[..i + 1] == rows[..i] + [rows[i]];
      RecordsAppend(rows[..i], [rows[i]], parse);
      KeptIffNamed(rows[i], parse);
      var rec := Transform(rows[i], parse);
      if rec.name != [] {
        out := out + [rec];
      }
      i := i + 1;
    }
    assert rows[..i] == rows;
  }

  /** The batch loop: the records, in consecutive batches, appended to the collection. */
  method InsertBatches(coll: Collection, records: seq<SeedRecord>)
    modifies coll
    ensures coll.docs == old(coll.docs) + records
    ensures coll.insertCalls == old(coll.insertCalls) + Batches(records)
  {
    var n := |records|;
    var i := 0;
    while i < n
      invariant 0 <= i <= n
      invariant coll.docs == old(coll.docs) + records[..i]
      invariant old(coll.insertCalls) + Batches(records) == coll.insertCalls + Batches(records[i..])
    {
      var end := if i + BatchSize < n then i + BatchSize else n;
      BatchStep(records, i, end);
      coll.InsertMany(records[i..end]);
      assert records[..end] == records[..i] + records[i..end];
      i := end;
    }
    assert records[..n] == records;
  }

  /** The batch starting at `i` runs to `end`, and the rest are the batches after it. */
  lemma BatchStep<T>(s: seq<T>, i: nat, end: nat)
    requires i < |s| && end == (if i + BatchSize < |s| then i + BatchSize else |s|)
    ensures Batches(s[i..]) == [s[i..end]] + Batches(s[end..])
  {
    if i + BatchSize < |s| {
      assert s[i..][..BatchSize] == s[i..end];
      assert s[i..][BatchSize..] == s[end..];
    } else {
      assert s[i..] == s[i..end];
      assert s[end..] == [];
    }
  }

  /** `seed_medicines` after the file is read: nothing is touched when no record survives
      cleaning; otherwise the collection is cleared and then holds exactly the records, in
      order, written in the batches `Batches` cuts. */
  method Seed(coll: Collection, rows: seq<Row>, parse: string -> Option<real>)
    modifies coll
    ensures Records(rows, parse) == [] ==> coll.docs == old(coll.docs) && coll.insertCalls == old(coll.insertCalls)
    ensures Records(rows, parse) != [] ==>
      coll.docs == Records(rows, parse) && coll.insertCalls == old(coll.insertCalls) + Batches(Records(rows, parse))
  {
    var records := CollectRecords(rows, parse);
    if records == [] {
      return;
    }
    coll.DeleteMany();
    InsertBatches(coll, records);
  }

}
