/** `output.csv`: one line per extracted item, under a header of every key any
    item has. A `null` and a missing key are different cells here. */
module AggregateCsv {
  import opened Wrappers
  import opened SampleLog

  datatype Csv = Csv(header: seq<string>, lines: seq<seq<Value>>)

  const NO_FIELDS := Fields([], map[])

  /** A JSON object lists each key once. */
  ghost predicate FieldsOk(f: Fields) {
    && (forall i, j :: 0 <= i < j < |f.keys| ==> f.keys[i] != f.keys[j])
    && (forall k :: k in f.keys <==> k in f.values)
  }

  function FieldsOf(item: Item): Fields { if item.Object? then item.fields else NO_FIELDS }

  /** The items a sample is written as: at least one, and `null` reads as {}. */
  function Items(row: Row): (r: seq<Fields>)
    ensures |r| >= 1
  {
    match row.extracted
    case Single(f) => [f]
    case Many(items) =>
      if items == [] then [NO_FIELDS]
      else seq(|items|, i requires 0 <= i < |items| => FieldsOf(items[i]))
    case Other => [NO_FIELDS]
  }

  ghost predicate RowOk(row: Row) { forall f <- Items(row) :: FieldsOk(f) }

  /** An element that is neither an object nor falsy has no `.keys`. */
  predicate RowRaises(row: Row) { row.extracted.Many? && Scalar in row.extracted.items }

  predicate SomeRaise(rows: seq<Row>) { exists i :: 0 <= i < |rows| && RowRaises(rows[i]) }

  // --- columns ---

  function AddKeys(keys: seq<string>, more: seq<string>): seq<string> {
    if more == [] then keys
    else
      var before := AddKeys(keys, more[..|more| - 1]);
      if more[|more| - 1] in before then before else before + [more[|more| - 1]]
  }

  function ItemKeys(keys: seq<string>, items: seq<Fields>): seq<string> {
    if items == [] then keys else AddKeys(ItemKeys(keys, items[..|items| - 1]), items[|items| - 1].keys)
  }

  function AllKeys(rows: seq<Row>): seq<string> {
    if rows == [] then [] else ItemKeys(AllKeys(rows[..|rows| - 1]), Items(rows[|rows| - 1]))
  }

  predicate AnyList(rows: seq<Row>) { exists row <- rows :: row.extracted.Many? }

  function Header(rows: seq<Row>): seq<string> {
    ["sample_id", "row_index"] + (if AnyList(rows) then ["item_index"] else []) + ["verdict"] + AllKeys(rows)
  }

  // --- lines ---

  function Get(f: Fields, key: string): Value { if key in f.values then f.values[key] else Text("") }

  function Prefix(row: Row, i: nat, anyList: bool): seq<Value> {
    [Text(row.sampleId), if row.rowIndex.Some? then Number(row.rowIndex.value) else Null] +
    (if anyList then [Number(i)] else []) + [Text(row.verdict)]
  }

  function Cells(f: Fields, keys: seq<string>): (r: seq<Value>)
    ensures |r| == |keys| && forall j :: 0 <= j < |keys| ==> r[j] == Get(f, keys[j])
  {
    seq(|keys|, j requires 0 <= j < |keys| => Get(f, keys[j]))
  }

  function LinesOf(row: Row, keys: seq<string>, anyList: bool): (r: seq<seq<Value>>)
    ensures |r| == |Items(row)|
    ensures forall i :: 0 <= i < |r| ==> r[i] == Prefix(row, i, anyList) + Cells(Items(row)[i], keys)
  {
    seq(|Items(row)|, i requires 0 <= i < |Items(row)| =>
      Prefix(row, i, anyList) + Cells(Items(row)[i], keys))
  }

  function AllLines(rows: seq<Row>, keys: seq<string>, anyList: bool): seq<seq<Value>> {
    if rows == [] then []
    else AllLines(rows[..|rows| - 1], keys, anyList) + LinesOf(rows[|rows| - 1], keys, anyList)
  }

  function Render(rows: seq<Row>): Csv {
    if rows == [] then Csv([], []) else Csv(Header(rows), AllLines(rows, AllKeys(rows), AnyList(rows)))
  }

  /** The loop over the keys of one item. */
  method AddItem(keys: seq<string>, more: seq<string>) returns (all: seq<string>)
    ensures all == AddKeys(keys, more)
  {
    all := keys;
    for j := 0 to |more|
      invariant all == AddKeys(keys, more[..j])
    {
      assert more[..j + 1][..j] == more[..j];
      if more[j] !in all {
        all := all + [more[j]];
      }
    }
    assert more[..|more|] == more;
  }

  method AddSample(keys: seq<string>, items: seq<Fields>) returns (all: seq<string>)
    ensures all == ItemKeys(keys, items)
  {
    all := keys;
    for i := 0 to |items|
      invariant all == ItemKeys(keys, items[..i])
    {
      assert items[..i + 1][..i] == items[..i];
      all := AddItem(all, items[i].keys);
    }
    assert items[..|items|] == items;
  }

  lemma AllKeysNext(rows: seq<Row>, n: nat)
    requires n < |rows|
    ensures AllKeys(rows[..n + 1]) == ItemKeys(AllKeys(rows[..n]), Items(rows[n]))
  {
    assert rows[..n + 1][..n] == rows[..n];
  }

  /** The first pass. */
  method CollectKeys(rows: seq<Row>) returns (r: Result<seq<string>, string>)
    ensures r.Err? <==> SomeRaise(rows)
    ensures r.Ok? ==> r.value == AllKeys(rows)
  {
    var keys := [];
    for n := 0 to |rows|
      invariant keys == AllKeys(rows[..n])
      invariant forall k :: 0 <= k < n ==> !RowRaises(rows[k])
    {
      if RowRaises(rows[n]) {
        return Err("AttributeError");
      }
      AllKeysNext(rows, n);
      keys := AddSample(keys, Items(rows[n]));
    }
    assert rows[..|rows|] == rows;
    return Ok(keys);
  }

  method WriteSample(row: Row, keys: seq<string>, anyList: bool) returns (lines: seq<seq<Value>>)
    ensures lines == LinesOf(row, keys, anyList)
  {
    var items := Items(row);
    lines := [];
    for i := 0 to |items|
      invariant |lines| == i
      invariant forall k :: 0 <= k < i ==> lines[k] == Prefix(row, k, anyList) + Cells(items[k], keys)
    {
      lines := lines + [Prefix(row, i, anyList) + Cells(items[i], keys)];
    }
  }

  /** The second pass. */
  method WriteLines(rows: seq<Row>, keys: seq<string>, anyList: bool) returns (lines: seq<seq<Value>>)
    ensures lines == AllLines(rows, keys, anyList)
  {
    lines := [];
    for n := 0 to |rows|
      invariant lines == AllLines(rows[..n], keys, anyList)
    {
      var more := WriteSample(rows[n], keys, anyList);
      lines := lines + more;
      assert rows[..n + 1][..n] == rows[..n];
    }
    assert rows[..|rows|] == rows;
  }

  /** `_rebuild_csv_from_jsonl`, given the summary. */
  method RebuildCsv(rows: seq<Row>) returns (r: Result<Csv, string>)
    ensures r.Err? <==> SomeRaise(rows)
    ensures r.Ok? ==> r.value == Render(rows)
    ensures rows == [] ==> r == Ok(Csv([], []))
  {
    if |rows| == 0 {
      return Ok(Csv([], []));
    }
    var keys := CollectKeys(rows);
    if keys.Err? {
      return Err(keys.error);
    }
    var lines := WriteLines(rows, keys.value, AnyList(rows));
    return Ok(Csv(Header(rows), lines));
  }

  // --- what the file keeps ---

  lemma {:induction false} EveryLineIsFull(rows: seq<Row>, keys: seq<string>, anyList: bool)
    ensures forall line <- AllLines(rows, keys, anyList) :: |line| == (if anyList then 4 else 3) + |keys|
  {
    if rows != [] {
      EveryLineIsFull(rows[..|rows| - 1], keys, anyList);
    }
  }

  /** The CSV is rectangular. */
  lemma CsvIsRectangular(rows: seq<Row>)
    ensures forall line <- Render(rows).lines :: |line| == |Render(rows).header|
  {
    EveryLineIsFull(rows, AllKeys(rows), AnyList(rows));
  }

  lemma {:induction false} AddKeysAdds(keys: seq<string>, more: seq<string>)
    requires forall i, j :: 0 <= i < j < |keys| ==> keys[i] != keys[j]
    ensures keys <= AddKeys(keys, more)
    ensures forall k :: k in AddKeys(keys, more) <==> k in keys || k in more
    ensures forall i, j :: 0 <= i < j < |AddKeys(keys, more)| ==> AddKeys(keys, more)[i] != AddKeys(keys, more)[j]
  {
    if more != [] {
      AddKeysAdds(keys, more[..|more| - 1]);
      assert forall k :: k in more <==> k in more[..|more| - 1] || k == more[|more| - 1];
    }
  }

  lemma {:induction false} ItemKeysAdd(keys: seq<string>, items: seq<Fields>)
    requires forall i, j :: 0 <= i < j < |keys| ==> keys[i] != keys[j]
    ensures keys <= ItemKeys(keys, items)
    ensures forall f <- items, k <- f.keys :: k in ItemKeys(keys, items)
    ensures forall i, j :: 0 <= i < j < |ItemKeys(keys, items)| ==> ItemKeys(keys, items)[i] != ItemKeys(keys, items)[j]
  {
    if items != [] {
      ItemKeysAdd(keys, items[..|items| - 1]);
      AddKeysAdds(ItemKeys(keys, items[..|items| - 1]), items[|items| - 1].keys);
    }
  }

  /** The columns have different names and cover every key of every item. */
  lemma {:induction false} ColumnsCoverItems(rows: seq<Row>)
    ensures forall i, j :: 0 <= i < j < |AllKeys(rows)| ==> AllKeys(rows)[i] != AllKeys(rows)[j]
    ensures forall row <- rows, f <- Items(row), k <- f.keys :: k in AllKeys(rows)
  {
    if rows != [] {
      var front, last := rows[..|rows| - 1], rows[|rows| - 1];
      ColumnsCoverItems(front);
      ItemKeysAdd(AllKeys(front), Items(last));
      assert forall k <- AllKeys(front) :: k in AllKeys(rows);
      forall row, f, k | row in rows && f in Items(row) && k in f.keys ensures k in AllKeys(rows) {
        if row in front {
          assert k in AllKeys(front);
        } else {
          assert row == last;
        }
      }
    }
  }

  // --- the order of the lines ---

  function FirstCells(lines: seq<seq<Value>>): seq<Value> {
    if lines == [] then []
    else
      FirstCells(lines[..|lines| - 1]) + (if lines[|lines| - 1] == [] then [] else [lines[|lines| - 1][0]])
  }

  function Repeated(sample: string, n: nat): seq<Value> { seq(n, _ => Text(sample)) }

  /** Each sample as often as it has items, in the order of the samples. */
  function SampleCells(rows: seq<Row>): seq<Value> {
    if rows == [] then []
    else
      var last := rows[|rows| - 1];
      SampleCells(rows[..|rows| - 1]) + Repeated(last.sampleId, ItemCount(last))
  }

  lemma {:induction false} FirstCellsAdd(a: seq<seq<Value>>, b: seq<seq<Value>>)
    ensures FirstCells(a + b) == FirstCells(a) + FirstCells(b)
  {
    if b == [] {
      assert a + b == a;
    } else {
      assert (a + b)[..|a + b| - 1] == a + b[..|b| - 1];
      FirstCellsAdd(a, b[..|b| - 1]);
    }
  }

  lemma {:induction false} FirstCellsOfOne(lines: seq<seq<Value>>, sample: string)
    requires forall i :: 0 <= i < |lines| ==> lines[i] != [] && lines[i][0] == Text(sample)
    ensures FirstCells(lines) == Repeated(sample, |lines|)
  {
    if lines != [] {
      FirstCellsOfOne(lines[..|lines| - 1], sample);
    }
  }

  lemma {:induction false} LinesFollow(rows: seq<Row>, keys: seq<string>, anyList: bool)
    ensures FirstCells(AllLines(rows, keys, anyList)) == SampleCells(rows)
  {
    if rows != [] {
      var front, last := rows[..|rows| - 1], rows[|rows| - 1];
      LinesFollow(front, keys, anyList);
      FirstCellsAdd(AllLines(front, keys, anyList), LinesOf(last, keys, anyList));
      FirstCellsOfOne(LinesOf(last, keys, anyList), last.sampleId);
      ItemsAreThose(last, 0);
    }
  }

  /** The lines come in the order of the samples, each with as many as it has items. */
  lemma LinesFollowSamples(rows: seq<Row>)
    ensures FirstCells(Render(rows).lines) == SampleCells(rows)
  {
    LinesFollow(rows, AllKeys(rows), AnyList(rows));
  }

  // --- the order of the columns ---

  function KeysOf(items: seq<Fields>): seq<string> {
    if items == [] then [] else KeysOf(items[..|items| - 1]) + items[|items| - 1].keys
  }

  /** Every key of every item, in the order of the file. */
  function KeysSeen(rows: seq<Row>): seq<string> {
    if rows == [] then [] else KeysSeen(rows[..|rows| - 1]) + KeysOf(Items(rows[|rows| - 1]))
  }

  function FirstAt(s: seq<string>, x: string): (i: nat)
    requires x in s
    ensures i < |s| && s[i] == x && forall k :: 0 <= k < i ==> s[k] != x
  {
    if s[0] == x then 0 else 1 + FirstAt(s[1..], x)
  }

  lemma {:induction false} AddKeysInTurn(keys: seq<string>, a: seq<string>, b: seq<string>)
    ensures AddKeys(keys, a + b) == AddKeys(AddKeys(keys, a), b)
  {
    if b == [] {
      assert a + b == a;
    } else {
      assert (a + b)[..|a + b| - 1] == a + b[..|b| - 1];
      AddKeysInTurn(keys, a, b[..|b| - 1]);
    }
  }

  lemma {:induction false} ItemKeysAreAdded(keys: seq<string>, items: seq<Fields>)
    ensures ItemKeys(keys, items) == AddKeys(keys, KeysOf(items))
  {
    if items != [] {
      ItemKeysAreAdded(keys, items[..|items| - 1]);
      AddKeysInTurn(keys, KeysOf(items[..|items| - 1]), items[|items| - 1].keys);
    }
  }

  lemma {:induction false} AllKeysAreAdded(rows: seq<Row>)
    ensures AllKeys(rows) == AddKeys([], KeysSeen(rows))
  {
    if rows != [] {
      var front, last := rows[..|rows| - 1], rows[|rows| - 1];
      AllKeysAreAdded(front);
      ItemKeysAreAdded(AllKeys(front), Items(last));
      AddKeysInTurn([], KeysSeen(front), KeysOf(Items(last)));
    }
  }

  ghost predicate InFirstSeenOrder(keys: seq<string>, seen: seq<string>) {
    && (forall k :: k in keys <==> k in seen)
    && (forall i, j :: 0 <= i < j < |keys| ==>
          keys[i] in seen && keys[j] in seen && FirstAt(seen, keys[i]) < FirstAt(seen, keys[j]))
  }

  lemma FirstAtMore(s: seq<string>, x: string, y: string)
    requires y in s
    ensures y in s + [x] && FirstAt(s + [x], y) == FirstAt(s, y)
  {
    var i, j := FirstAt(s, y), FirstAt(s + [x], y);
    assert (s + [x])[i] == y;
    assert forall k :: 0 <= k < |s| ==> (s + [x])[k] == s[k];
    assert i <= j <= i;
  }

  lemma {:induction false} AddedInFirstSeenOrder(seen: seq<string>)
    ensures InFirstSeenOrder(AddKeys([], seen), seen)
  {
    if seen != [] {
      var front, x := seen[..|seen| - 1], seen[|seen| - 1];
      var before := AddKeys([], front);
      AddedInFirstSeenOrder(front);
      assert front + [x] == seen;
      forall k | k in before ensures k in seen && FirstAt(seen, k) == FirstAt(front, k) < |front| {
        FirstAtMore(front, x, k);
      }
      if x !in before {
        assert FirstAt(seen, x) == |front|;
        assert forall k :: k in before + [x] <==> k in before || k == x;
      }
      assert forall k :: k in seen <==> k in front || k == x;
    }
  }

  /** How many columns come before those of the items. */
  function Lead(rows: seq<Row>): nat { if exists row <- rows :: row.extracted.Many? then 4 else 3 }

  lemma ItemColumns(rows: seq<Row>)
    requires rows != []
    ensures var header := Render(rows).header; |header| >= Lead(rows) && header[Lead(rows)..] == AllKeys(rows)
  {
  }

  /** The item columns are the keys of the items, each once, in the order in
      which the file first shows them. */
  lemma ColumnsInFirstSeenOrder(rows: seq<Row>)
    requires rows != []
    ensures var header := Render(rows).header;
            |header| >= Lead(rows) && InFirstSeenOrder(header[Lead(rows)..], KeysSeen(rows))
  {
    AllKeysAreAdded(rows);
    AddedInFirstSeenOrder(KeysSeen(rows));
    ItemColumns(rows);
  }

  // --- reading the file back ---

  /** The lines of one sample. */
  function Group(lines: seq<seq<Value>>, sample: string): seq<seq<Value>> {
    if lines == [] then []
    else
      var front, last := Group(lines[..|lines| - 1], sample), lines[|lines| - 1];
      if last != [] && last[0] == Text(sample) then front + [last] else front
  }

  lemma {:induction false} GroupAdds(a: seq<seq<Value>>, b: seq<seq<Value>>, sample: string)
    ensures Group(a + b, sample) == Group(a, sample) + Group(b, sample)
  {
    if b == [] {
      assert a + b == a;
    } else {
      assert (a + b)[..|a + b| - 1] == a + b[..|b| - 1];
      GroupAdds(a, b[..|b| - 1], sample);
    }
  }

  lemma {:induction false} GroupOfOne(lines: seq<seq<Value>>, owner: string, sample: string)
    requires forall i :: 0 <= i < |lines| ==> lines[i] != [] && lines[i][0] == Text(owner)
    ensures Group(lines, sample) == if owner == sample then lines else []
  {
    if lines != [] {
      GroupOfOne(lines[..|lines| - 1], owner, sample);
      assert lines[..|lines| - 1] + [lines[|lines| - 1]] == lines;
    }
  }

  lemma GroupOfSample(row: Row, sample: string, keys: seq<string>, anyList: bool)
    ensures Group(LinesOf(row, keys, anyList), sample) ==
            if row.sampleId == sample then LinesOf(row, keys, anyList) else []
  {
    GroupOfOne(LinesOf(row, keys, anyList), row.sampleId, sample);
  }

  function Concat(rows: seq<Row>, f: Row -> seq<seq<Value>>): seq<seq<Value>> {
    if rows == [] then [] else Concat(rows[..|rows| - 1], f) + f(rows[|rows| - 1])
  }

  lemma {:induction false} AllLinesAreConcat(rows: seq<Row>, keys: seq<string>, anyList: bool)
    ensures AllLines(rows, keys, anyList) == Concat(rows, (row: Row) => LinesOf(row, keys, anyList))
  {
    if rows != [] {
      AllLinesAreConcat(rows[..|rows| - 1], keys, anyList);
    }
  }

  lemma ConcatNext(front: seq<Row>, last: Row, f: Row -> seq<seq<Value>>)
    ensures Concat(front + [last], f) == Concat(front, f) + f(last)
  {
    assert (front + [last])[..|front|] == front;
  }

  /** Grouping what the rows write is writing what each row's group is. */
  lemma {:induction false} GroupOfConcat(rows: seq<Row>, f: Row -> seq<seq<Value>>, sample: string)
    ensures Group(Concat(rows, f), sample) == Concat(rows, (row: Row) => Group(f(row), sample))
  {
    if rows != [] {
      GroupOfConcat(rows[..|rows| - 1], f, sample);
      GroupAdds(Concat(rows[..|rows| - 1], f), f(rows[|rows| - 1]), sample);
    }
  }

  lemma {:induction false} OnlyOneWrites(rows: seq<Row>, f: Row -> seq<seq<Value>>, n: nat, m: nat)
    requires n < |rows| && m <= |rows|
    requires forall i :: 0 <= i < |rows| && i != n ==> f(rows[i]) == []
    ensures Concat(rows[..m], f) == if n < m then f(rows[n]) else []
  {
    if m > 0 {
      OnlyOneWrites(rows, f, n, m - 1);
      ConcatNext(rows[..m - 1], rows[m - 1], f);
      assert rows[..m] == rows[..m - 1] + [rows[m - 1]];
      Padding(f(rows[n]));
    }
  }

  lemma OnlyOneIsGrouped(rows: seq<Row>, n: nat, keys: seq<string>, anyList: bool, g: Row -> seq<seq<Value>>)
    requires n < |rows|
    requires forall i :: 0 <= i < |rows| && i != n ==> rows[i].sampleId != rows[n].sampleId
    requires forall row :: g(row) == Group(LinesOf(row, keys, anyList), rows[n].sampleId)
    ensures Concat(rows, g) == LinesOf(rows[n], keys, anyList)
  {
    forall i | 0 <= i < |rows| ensures g(rows[i]) == if i == n then LinesOf(rows[i], keys, anyList) else [] {
      GroupOfSample(rows[i], rows[n].sampleId, keys, anyList);
    }
    OnlyOneWrites(rows, g, n, |rows|);
    assert rows[..|rows|] == rows;
  }

  lemma GroupFindsTheSample(rows: seq<Row>, n: nat, keys: seq<string>, anyList: bool)
    requires n < |rows|
    requires forall i :: 0 <= i < |rows| && i != n ==> rows[i].sampleId != rows[n].sampleId
    ensures Group(AllLines(rows, keys, anyList), rows[n].sampleId) == LinesOf(rows[n], keys, anyList)
  {
    var f, sample := (row: Row) => LinesOf(row, keys, anyList), rows[n].sampleId;
    AllLinesAreConcat(rows, keys, anyList);
    GroupOfConcat(rows, f, sample);
    OnlyOneIsGrouped(rows, n, keys, anyList, (row: Row) => Group(f(row), sample));
  }

  lemma Padding<T>(s: seq<T>)
    ensures [] + s == s && s + [] == s
  {
  }

  /** The cell of a line under a column; the item columns come last. */
  function Cell(line: seq<Value>, keys: seq<string>, key: string): (v: Value)
    requires |line| >= |keys| && key in keys
    ensures exists j :: 0 <= j < |keys| && keys[j] == key && v == line[|line| - |keys| + j]
  {
    var n := |keys| - 1;
    if keys[n] == key then line[|line| - 1]
    else
      assert key in keys[..n];
      Cell(line[..|line| - 1], keys[..n], key)
  }

  /** Reading a line back: the non-empty cells under the item columns. */
  function ReadBack(line: seq<Value>, keys: seq<string>): map<string, Value>
    requires |line| >= |keys|
  {
    map key | key in keys && Cell(line, keys, key) != Text("") :: Cell(line, keys, key)
  }

  /** How many lines a sample is written as. */
  function ItemCount(row: Row): nat {
    if row.extracted.Many? && row.extracted.items != [] then |row.extracted.items| else 1
  }

  /** What its i-th item holds; `null` and the like hold nothing. */
  function ItemAt(row: Row, i: nat): map<string, Value> {
    match row.extracted
    case Single(f) => f.values
    case Many(items) => if i < |items| && items[i].Object? then items[i].fields.values else map[]
    case Other => map[]
  }

  lemma ItemsAreThose(row: Row, i: nat)
    requires i < ItemCount(row)
    ensures |Items(row)| == ItemCount(row) && Items(row)[i].values == ItemAt(row, i)
  {
  }

  /** The cells before the item columns are what the header calls them. */
  ghost predicate LeadingCellsNamed(header: seq<string>, line: seq<Value>, lead: nat, row: Row, i: nat)
    requires |header| == |line| >= lead
  {
    && header[..lead] == (if lead == 4 then ["sample_id", "row_index", "item_index", "verdict"]
                          else ["sample_id", "row_index", "verdict"])
    && forall j :: 0 <= j < lead ==>
         && (header[j] == "sample_id" ==> line[j] == Text(row.sampleId))
         && (header[j] == "row_index" ==>
               line[j] == if row.rowIndex.Some? then Number(row.rowIndex.value) else Null)
         && (header[j] == "item_index" ==> line[j] == Number(i))
         && (header[j] == "verdict" ==> line[j] == Text(row.verdict))
  }

  /** The cells from the first item column on are the item's values of these names. */
  ghost predicate ItemCellsNamed(header: seq<string>, line: seq<Value>, lead: nat, item: map<string, Value>)
    requires |header| == |line| >= lead
  {
    forall j :: lead <= j < |header| ==> line[j] == if header[j] in item then item[header[j]] else Text("")
  }

  lemma LeadingNamed(rows: seq<Row>, row: Row, i: nat)
    requires rows != [] && i < |Items(row)|
    ensures var header, line := Render(rows).header, LinesOf(row, AllKeys(rows), AnyList(rows))[i];
            |header| == |line| >= Lead(rows) && LeadingCellsNamed(header, line, Lead(rows), row, i)
  {
    var names := LeadingNames(rows);
    var prefix := Prefix(row, i, AnyList(rows));
    PrefixIsNamed(names, row, i, AnyList(rows));
    ItemColumns(rows);
    assert Render(rows).header == names + AllKeys(rows);
    NamedInFront(names, prefix, AllKeys(rows), Cells(Items(row)[i], AllKeys(rows)), row, i);
  }

  lemma PrefixIsNamed(names: seq<string>, row: Row, i: nat, anyList: bool)
    requires names == if anyList then ["sample_id", "row_index", "item_index", "verdict"]
                      else ["sample_id", "row_index", "verdict"]
    ensures |names| == |Prefix(row, i, anyList)|
    ensures LeadingCellsNamed(names, Prefix(row, i, anyList), |names|, row, i)
  {
    assert names[..|names|] == names;
  }

  lemma NamedInFront(names: seq<string>, prefix: seq<Value>, keys: seq<string>, cells: seq<Value>, row: Row, i: nat)
    requires |names| == |prefix| && |keys| == |cells| && LeadingCellsNamed(names, prefix, |names|, row, i)
    ensures LeadingCellsNamed(names + keys, prefix + cells, |names|, row, i)
  {
    assert (names + keys)[..|names|] == names[..|names|] == names;
    assert forall j :: 0 <= j < |names| ==> (names + keys)[j] == names[j] && (prefix + cells)[j] == prefix[j];
  }

  lemma LeadingNames(rows: seq<Row>) returns (names: seq<string>)
    requires rows != []
    ensures |Render(rows).header| >= Lead(rows) == |names| && Render(rows).header[..Lead(rows)] == names
    ensures names == if AnyList(rows) then ["sample_id", "row_index", "item_index", "verdict"]
                     else ["sample_id", "row_index", "verdict"]
  {
    names := if AnyList(rows) then ["sample_id", "row_index", "item_index", "verdict"]
             else ["sample_id", "row_index", "verdict"];
    assert Render(rows).header == names + AllKeys(rows);
  }

  lemma ItemNamed(rows: seq<Row>, row: Row, i: nat)
    requires rows != [] && i < |Items(row)|
    ensures var header, line := Render(rows).header, LinesOf(row, AllKeys(rows), AnyList(rows))[i];
            |header| == |line| >= Lead(rows) && ItemCellsNamed(header, line, Lead(rows), Items(row)[i].values)
  {
    var header, keys, item := Render(rows).header, AllKeys(rows), Items(row)[i];
    var prefix, lead := Prefix(row, i, AnyList(rows)), header[..Lead(rows)];
    assert |prefix| == |lead| && header == lead + keys;
    CellsAreNamed(lead, prefix, keys, item);
  }

  lemma CellsAreNamed(lead: seq<string>, prefix: seq<Value>, keys: seq<string>, item: Fields)
    requires |lead| == |prefix|
    ensures ItemCellsNamed(lead + keys, prefix + Cells(item, keys), |lead|, item.values)
  {
    var header, line := lead + keys, prefix + Cells(item, keys);
    forall j | |lead| <= j < |header|
      ensures line[j] == if header[j] in item.values then item.values[header[j]] else Text("")
    {
      assert header[j] == keys[j - |lead|] && line[j] == Cells(item, keys)[j - |lead|];
    }
  }

  /** Every cell of every line of a sample is what the header calls it: the
      sample's id, index and verdict, the number of the item, and the values of
      the item, whose keys all have a column. */
  lemma EveryCellIsNamed(rows: seq<Row>, n: nat, i: nat)
    requires OneLineEach(rows) && n < |rows| && RowOk(rows[n]) && !SomeRaise(rows) && i < ItemCount(rows[n])
    ensures var header, lines := Render(rows).header, Group(Render(rows).lines, rows[n].sampleId);
            var lead := if exists row <- rows :: row.extracted.Many? then 4 else 3;
            && |lines| == ItemCount(rows[n]) && |header| == |lines[i]| >= lead
            && LeadingCellsNamed(header, lines[i], lead, rows[n], i)
            && ItemCellsNamed(header, lines[i], lead, ItemAt(rows[n], i))
            && forall k <- ItemAt(rows[n], i) :: k in header[lead..]
  {
    GroupFindsTheSample(rows, n, AllKeys(rows), AnyList(rows));
    ItemsAreThose(rows[n], i);
    LeadingNamed(rows, rows[n], i);
    ItemNamed(rows, rows[n], i);
    ColumnsCoverItems(rows);
    var item := Items(rows[n])[i];
    assert item in Items(rows[n]) && rows[n] in rows && FieldsOk(item);
    ItemColumns(rows);
  }

  /** What a map holds but empty texts. */
  function NonEmpty(item: map<string, Value>): map<string, Value> {
    map k | k in item && item[k] != Text("") :: item[k]
  }

  /** Grouping the lines by sample id and reading them under the header recovers
      every item of every sample, in order, up to missing keys and empty texts. */
  lemma CsvRecoversEveryItem(rows: seq<Row>, n: nat)
    requires OneLineEach(rows) && n < |rows| && RowOk(rows[n]) && !SomeRaise(rows)
    ensures var csv, lead := Render(rows), if exists row <- rows :: row.extracted.Many? then 4 else 3;
            var lines := Group(csv.lines, rows[n].sampleId);
            && |csv.header| >= lead && |lines| == ItemCount(rows[n])
            && forall i :: 0 <= i < |lines| ==>
                 && |lines[i]| == |csv.header|
                 && ReadBack(lines[i], csv.header[lead..]) == NonEmpty(ItemAt(rows[n], i))
  {
    var csv := Render(rows);
    var lines := Group(csv.lines, rows[n].sampleId);
    EveryCellIsNamed(rows, n, 0);
    forall i | 0 <= i < |lines|
      ensures |lines[i]| == |csv.header| && ReadBack(lines[i], csv.header[Lead(rows)..]) == NonEmpty(ItemAt(rows[n], i))
    {
      EveryCellIsNamed(rows, n, i);
      ReadsBack(csv.header, lines[i], Lead(rows), ItemAt(rows[n], i));
    }
  }

  lemma CellIsNamed(header: seq<string>, line: seq<Value>, lead: nat, item: map<string, Value>, k: string)
    requires |header| == |line| >= lead && ItemCellsNamed(header, line, lead, item) && k in header[lead..]
    ensures Cell(line, header[lead..], k) == if k in item then item[k] else Text("")
  {
    var keys := header[lead..];
    var j :| 0 <= j < |keys| && keys[j] == k && Cell(line, keys, k) == line[|line| - |keys| + j];
    assert header[lead + j] == k && line[lead + j] == Cell(line, keys, k);
  }

  lemma ReadsBack(header: seq<string>, line: seq<Value>, lead: nat, item: map<string, Value>)
    requires |header| == |line| >= lead && ItemCellsNamed(header, line, lead, item)
    requires forall k <- item :: k in header[lead..]
    ensures ReadBack(line, header[lead..]) == NonEmpty(item)
  {
    var keys := header[lead..];
    forall k | k in keys ensures Cell(line, keys, k) == if k in item then item[k] else Text("") {
      CellIsNamed(header, line, lead, item, k);
    }
    SameReading(line, keys, item);
  }

  lemma SameReading(line: seq<Value>, keys: seq<string>, item: map<string, Value>)
    requires |line| >= |keys| && forall k <- item :: k in keys
    requires forall k <- keys :: Cell(line, keys, k) == if k in item then item[k] else Text("")
    ensures ReadBack(line, keys) == NonEmpty(item)
  {
  }
}
