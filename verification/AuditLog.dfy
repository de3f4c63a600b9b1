/** The hash-chained audit log in one table. SHA-256 and JSON are parameters:
    nothing is assumed of the hash, so what tampering would take is stated as
    a collision or a preimage of the genesis value. */
module AuditLog {
  import opened Wrappers

  const SEPARATOR: char := '\U{1F}'

  const GENESIS: string :=
    "0000000000000000000000000000000000000000000000000000000000000000"

  /** A payload. Numbers are integers here: their rendering is the codec's. */
  datatype Json =
    | JNull
    | JBool(flag: bool)
    | JNumber(number: int)
    | JText(text: string)
    | JArray(items: seq<Json>)
    | JObject(fields: map<string, Json>)

  /** SHA-256 in hex, canonical JSON, and `json.loads`. */
  datatype Codec = Codec(hash: string -> string, canon: Json -> string, loads: string -> Option<Json>)

  /** The five strings the hash covers. */
  datatype Fields = Fields(prev: string, eventId: string, kind: string, timestamp: string, payload: string)

  datatype Row = Row(
    eventId: string, kind: string, runId: Option<string>, sampleId: Option<string>,
    timestamp: string, payloadJson: string, prevHash: string, thisHash: string)

  datatype Event = Event(
    eventId: string, kind: string, runId: Option<string>, sampleId: Option<string>,
    timestamp: string, payload: Json)

  function Join(f: Fields): string {
    f.prev + [SEPARATOR] + f.eventId + [SEPARATOR] + f.kind + [SEPARATOR] + f.timestamp +
    [SEPARATOR] + f.payload
  }

  // --- the joined string determines the fields ---

  function Separators(s: string): nat {
    if s == [] then 0 else Separators(s[1..]) + (if s[0] == SEPARATOR then 1 else 0)
  }

  predicate SeparatorFree(f: Fields) {
    SEPARATOR !in f.prev && SEPARATOR !in f.eventId && SEPARATOR !in f.kind &&
    SEPARATOR !in f.timestamp && SEPARATOR !in f.payload
  }

  /** The fields before the last have no separator. */
  predicate HeadSeparatorFree(f: Fields) {
    SEPARATOR !in f.prev && SEPARATOR !in f.eventId && SEPARATOR !in f.kind && SEPARATOR !in f.timestamp
  }

  lemma {:induction false} SeparatorsAdd(a: string, b: string)
    ensures Separators(a + b) == Separators(a) + Separators(b)
  {
    if a == [] {
      assert a + b == b;
    } else {
      assert (a + b)[1..] == a[1..] + b;
      SeparatorsAdd(a[1..], b);
    }
  }

  lemma {:induction false} NoSeparators(s: string)
    ensures Separators(s) == 0 <==> SEPARATOR !in s
  {
    if s != [] {
      NoSeparators(s[1..]);
    }
  }

  lemma SplitFirst(a: string, x: string, b: string, y: string)
    requires a + [SEPARATOR] + x == b + [SEPARATOR] + y
    requires SEPARATOR !in a && SEPARATOR !in b
    ensures a == b && x == y
  {
    var s := a + [SEPARATOR] + x;
    assert s[|a|] == SEPARATOR && s[|b|] == SEPARATOR;
    assert a == s[..|a|] && b == s[..|b|];
    assert x == s[|a| + 1..] && y == s[|b| + 1..];
  }

  lemma JoinInjective(f: Fields, g: Fields)
    requires Join(f) == Join(g) && HeadSeparatorFree(f) && HeadSeparatorFree(g)
    ensures f == g
  {
    var s := [SEPARATOR];
    var f4, g4 := f.timestamp + s + f.payload, g.timestamp + s + g.payload;
    var f3, g3 := f.kind + s + f4, g.kind + s + g4;
    var f2, g2 := f.eventId + s + f3, g.eventId + s + g3;
    assert Join(f) == f.prev + s + f2 && Join(g) == g.prev + s + g2;
    SplitFirst(f.prev, f2, g.prev, g2);
    SplitFirst(f.eventId, f3, g.eventId, g3);
    SplitFirst(f.kind, f4, g.kind, g4);
    SplitFirst(f.timestamp, f.payload, g.timestamp, g.payload);
  }

  lemma JoinSeparators(f: Fields)
    ensures Separators(Join(f)) == 4 + Separators(f.prev) + Separators(f.eventId) + Separators(f.kind) +
                                   Separators(f.timestamp) + Separators(f.payload)
  {
    var s := [SEPARATOR];
    assert s[1..] == [] && Separators(s) == 1;
    var a := f.prev + s + f.eventId;
    var b := a + s + f.kind;
    var c := b + s + f.timestamp;
    SeparatorsAdd(f.prev, s);
    SeparatorsAdd(f.prev + s, f.eventId);
    SeparatorsAdd(a, s);
    SeparatorsAdd(a + s, f.kind);
    SeparatorsAdd(b, s);
    SeparatorsAdd(b + s, f.timestamp);
    SeparatorsAdd(c, s);
    SeparatorsAdd(c + s, f.payload);
    assert Join(f) == c + s + f.payload;
  }

  lemma Cut(s: string) returns (x: string, y: string)
    requires SEPARATOR in s
    ensures s == x + [SEPARATOR] + y
  {
    var i :| 0 <= i < |s| && s[i] == SEPARATOR;
    x, y := s[..i], s[i + 1..];
  }

  /** A separator inside a field can be read as a boundary. */
  lemma OtherReading(f: Fields) returns (g: Fields)
    requires !SeparatorFree(f)
    ensures g != f && Join(g) == Join(f)
  {
    var s := [SEPARATOR];
    if SEPARATOR in f.prev {
      var x, y := Cut(f.prev);
      g := Fields(x, y, f.eventId, f.kind, f.timestamp + s + f.payload);
      assert |g.prev| < |f.prev|;
    } else if SEPARATOR in f.eventId {
      var x, y := Cut(f.eventId);
      g := Fields(f.prev, x, y, f.kind, f.timestamp + s + f.payload);
      assert |g.eventId| < |f.eventId|;
    } else if SEPARATOR in f.kind {
      var x, y := Cut(f.kind);
      g := Fields(f.prev, f.eventId, x, y, f.timestamp + s + f.payload);
      assert |g.kind| < |f.kind|;
    } else if SEPARATOR in f.timestamp {
      var x, y := Cut(f.timestamp);
      g := Fields(f.prev, f.eventId, f.kind, x, y + s + f.payload);
      assert |g.timestamp| < |f.timestamp|;
    } else {
      var x, y := Cut(f.payload);
      g := Fields(f.prev + s + f.eventId, f.kind, f.timestamp, x, y);
      assert |g.prev| > |f.prev|;
    }
  }

  /** The hashed string can be read back in one way only, exactly when no field
      contains the separator. */
  lemma JoinIsUnambiguousIff(f: Fields)
    ensures SeparatorFree(f) <==> forall g: Fields :: Join(g) == Join(f) ==> g == f
  {
    if SeparatorFree(f) {
      forall g: Fields | Join(g) == Join(f) ensures g == f {
        JoinSeparators(f);
        JoinSeparators(g);
        NoSeparators(f.prev); NoSeparators(f.eventId); NoSeparators(f.kind);
        NoSeparators(f.timestamp); NoSeparators(f.payload);
        NoSeparators(g.prev); NoSeparators(g.eventId); NoSeparators(g.kind); NoSeparators(g.timestamp);
        JoinInjective(f, g);
      }
    } else {
      var g := OtherReading(f);
    }
  }

  // --- append and verify ---

  function Tail(rows: seq<Row>): string {
    if rows == [] then GENESIS else rows[|rows| - 1].thisHash
  }

  function NewRow(c: Codec, prev: string, e: Event): Row {
    Row(e.eventId, e.kind, e.runId, e.sampleId, e.timestamp, c.canon(e.payload), prev,
        c.hash(Join(Fields(prev, e.eventId, e.kind, e.timestamp, c.canon(e.payload)))))
  }

  /** The row says what the event was, with the payload as canonical text. */
  predicate Says(c: Codec, row: Row, e: Event) {
    && row.eventId == e.eventId && row.kind == e.kind && row.timestamp == e.timestamp
    && row.runId == e.runId && row.sampleId == e.sampleId && row.payloadJson == c.canon(e.payload)
  }

  /** The text hashed again when a row is verified. */
  function Reread(c: Codec, row: Row): Option<string> {
    match c.loads(row.payloadJson)
    case None => None
    case Some(j) => Some(c.canon(j))
  }

  function Covered(c: Codec, row: Row): Fields {
    Fields(row.prevHash, row.eventId, row.kind, row.timestamp,
           match Reread(c, row) case None => "" case Some(text) => text)
  }

  /** `json.loads` raises on a payload that is not JSON. */
  datatype Check = Intact | Broken | Malformed

  function Verify(c: Codec, expected: string, rows: seq<Row>): Check
    decreases |rows|
  {
    if rows == [] then Intact
    else if rows[0].prevHash != expected then Broken
    else if Reread(c, rows[0]).None? then Malformed
    else if c.hash(Join(Covered(c, rows[0]))) != rows[0].thisHash then Broken
    else Verify(c, rows[0].thisHash, rows[1..])
  }

  ghost predicate LinkOk(c: Codec, prev: string, row: Row) {
    row.prevHash == prev && Reread(c, row).Some? && c.hash(Join(Covered(c, row))) == row.thisHash
  }

  /** Every row is linked to the one before it and hashes to what it says. */
  ghost predicate ChainOk(c: Codec, rows: seq<Row>) {
    rows == [] ||
    (ChainOk(c, rows[..|rows| - 1]) && LinkOk(c, Tail(rows[..|rows| - 1]), rows[|rows| - 1]))
  }

  class AuditLog {
    var rows: seq<Row>
    const codec: Codec

    constructor (codec: Codec)
      ensures rows == [] && this.codec == codec
    {
      rows := [];
      this.codec := codec;
    }

    /** Runs under the instance lock. A known event id violates the primary key. */
    method Append(e: Event) returns (r: Result<string, string>)
      modifies this
      ensures r.Ok? <==> forall row <- old(rows) :: row.eventId != e.eventId
      ensures r.Ok? ==> rows == old(rows) + [NewRow(codec, Tail(old(rows)), e)] && r.value == Tail(rows)
      ensures r.Ok? ==> Says(codec, rows[|rows| - 1], e) && rows[|rows| - 1].prevHash == Tail(old(rows))
      ensures r.Err? ==> rows == old(rows)
    {
      var prev := if |rows| > 0 then rows[|rows| - 1].thisHash else GENESIS;
      var text := codec.canon(e.payload);
      var thisHash := codec.hash(Join(Fields(prev, e.eventId, e.kind, e.timestamp, text)));
      if exists row <- rows :: row.eventId == e.eventId {
        return Err("UNIQUE constraint failed: audit_log.event_id");
      }
      rows := rows + [Row(e.eventId, e.kind, e.runId, e.sampleId, e.timestamp, text, prev, thisHash)];
      return Ok(thisHash);
    }

    method VerifyChain() returns (check: Check)
      ensures check == Verify(codec, GENESIS, rows)
      ensures check == Intact <==> ChainOk(codec, rows)
      ensures check == Intact ==> forall row <- rows :: HashesTo(codec, row)
    {
      check := Walk(codec, rows);
      VerifyAcceptsChains(codec, rows);
      if check == Intact {
        EveryRowHashes(codec, rows);
      }
    }
  }

  /** The hash of a row is that of its five fields, joined. */
  ghost predicate HashesTo(c: Codec, row: Row) {
    && c.loads(row.payloadJson).Some?
    && row.thisHash == c.hash(row.prevHash + [SEPARATOR] + row.eventId + [SEPARATOR] + row.kind + [SEPARATOR] +
                              row.timestamp + [SEPARATOR] + c.canon(c.loads(row.payloadJson).value))
  }

  lemma {:induction false} EveryRowHashes(c: Codec, rows: seq<Row>)
    requires ChainOk(c, rows)
    ensures forall row <- rows :: HashesTo(c, row)
  {
    if rows != [] {
      EveryRowHashes(c, rows[..|rows| - 1]);
      assert LinkOk(c, Tail(rows[..|rows| - 1]), rows[|rows| - 1]);
      assert forall row <- rows :: row in rows[..|rows| - 1] || row == rows[|rows| - 1];
    }
  }

  /** The loop of `verify_chain`. */
  method Walk(c: Codec, rows: seq<Row>) returns (check: Check)
    ensures check == Verify(c, GENESIS, rows)
  {
    var expected := GENESIS;
    for i := 0 to |rows|
      invariant Verify(c, GENESIS, rows) == Verify(c, expected, rows[i..])
    {
      var row := rows[i];
      assert rows[i..][1..] == rows[i + 1..];
      if row.prevHash != expected {
        return Broken;
      }
      var payload := c.loads(row.payloadJson);
      if payload.None? {
        return Malformed;
      }
      var recomputed := c.hash(Join(
        Fields(row.prevHash, row.eventId, row.kind, row.timestamp, c.canon(payload.value))));
      if recomputed != row.thisHash {
        return Broken;
      }
      expected := row.thisHash;
    }
    return Intact;
  }

  /** The verifier's walk accepts exactly the linked chains. */
  lemma {:induction false} VerifyMeansChainOk(c: Codec, before: seq<Row>, rows: seq<Row>)
    ensures ChainOk(c, before) && Verify(c, Tail(before), rows) == Intact <==> ChainOk(c, before + rows)
    decreases |rows|
  {
    if rows == [] {
      assert before + rows == before;
    } else {
      var before' := before + [rows[0]];
      assert before'[..|before|] == before && before' + rows[1..] == before + rows;
      VerifyMeansChainOk(c, before', rows[1..]);
    }
  }

  lemma VerifyAcceptsChains(c: Codec, rows: seq<Row>)
    ensures Verify(c, GENESIS, rows) == Intact <==> ChainOk(c, rows)
  {
    VerifyMeansChainOk(c, [], rows);
    assert [] + rows == rows;
  }

  lemma {:induction false} VerifySkipsChain(c: Codec, before: seq<Row>, rows: seq<Row>, k: nat)
    requires k <= |rows| && ChainOk(c, before + rows[..k])
    ensures Verify(c, Tail(before), rows) == Verify(c, Tail(before + rows[..k]), rows[k..])
    decreases k
  {
    if k == 0 {
      assert before + rows[..0] == before && rows[0..] == rows;
    } else {
      var before', rest := before + [rows[0]], rows[1..];
      assert before' + rest[..k - 1] == before + rows[..k];
      assert rest[k - 1..] == rows[k..];
      VerifySkipsChain(c, before', rest, k - 1);
      FirstLinks(c, before, rows[..k]);
      VerifySkipsRow(c, Tail(before), rows);
    }
  }

  lemma FirstLinks(c: Codec, before: seq<Row>, rows: seq<Row>)
    requires rows != [] && ChainOk(c, before + rows)
    ensures LinkOk(c, Tail(before), rows[0])
  {
    ChainLinks(c, before + rows, |before|);
    assert (before + rows)[..|before|] == before && (before + rows)[|before|] == rows[0];
  }

  lemma VerifySkipsRow(c: Codec, expected: string, rows: seq<Row>)
    requires rows != [] && LinkOk(c, expected, rows[0])
    ensures Verify(c, expected, rows) == Verify(c, rows[0].thisHash, rows[1..])
  {
  }

  /** At the first row that is not as it should be the check stops: it raises when
      the row is linked and its payload is not JSON, and otherwise fails. */
  lemma FirstBadRowDecides(c: Codec, rows: seq<Row>, k: nat)
    requires k < |rows| && ChainOk(c, rows[..k]) && !ChainOk(c, rows[..k + 1])
    ensures Verify(c, GENESIS, rows) ==
            if rows[k].prevHash == Tail(rows[..k]) && c.loads(rows[k].payloadJson).None? then Malformed else Broken
  {
    assert [] + rows[..k] == rows[..k];
    VerifySkipsChain(c, [], rows, k);
    assert rows[..k + 1][..k] == rows[..k] && rows[..k + 1][k] == rows[k] && rows[k..][0] == rows[k];
  }

  /** What JSON promises: a canonical text reads back to a value with that text. */
  ghost predicate RoundTrips(c: Codec) {
    forall j :: c.loads(c.canon(j)).Some? && c.canon(c.loads(c.canon(j)).value) == c.canon(j)
  }

  function AppendAll(c: Codec, events: seq<Event>): seq<Row> {
    if events == [] then []
    else
      var rows := AppendAll(c, events[..|events| - 1]);
      rows + [NewRow(c, Tail(rows), events[|events| - 1])]
  }

  /** A log one instance wrote verifies, whatever was appended. */
  lemma {:induction false} AppendedLogsVerify(c: Codec, events: seq<Event>)
    requires RoundTrips(c)
    ensures ChainOk(c, AppendAll(c, events)) && |AppendAll(c, events)| == |events|
    ensures forall i :: 0 <= i < |events| ==> Says(c, AppendAll(c, events)[i], events[i])
  {
    if events != [] {
      var front := AppendAll(c, events[..|events| - 1]);
      AppendedLogsVerify(c, events[..|events| - 1]);
      assert AppendAll(c, events)[..|front|] == front;
    }
  }

  // --- the root pins the log ---

  predicate Collide(hash: string -> string, x: string, y: string) { x != y && hash(x) == hash(y) }

  /** Two rows agree in everything a reader of the log takes from them but the
      run and sample ids: the payloads read back to the same canonical text. */
  ghost predicate SayTheSame(c: Codec, x: Row, y: Row) {
    && x.eventId == y.eventId && x.kind == y.kind && x.timestamp == y.timestamp && x.prevHash == y.prevHash
    && c.loads(x.payloadJson).Some? && c.loads(y.payloadJson).Some?
    && c.canon(c.loads(x.payloadJson).value) == c.canon(c.loads(y.payloadJson).value)
  }

  /** Same length and the same content, row by row. */
  ghost predicate SameContent(c: Codec, a: seq<Row>, b: seq<Row>) {
    |a| == |b| && forall i :: 0 <= i < |a| ==> SayTheSame(c, a[i], b[i])
  }

  ghost predicate HasCollision(c: Codec, a: seq<Row>, b: seq<Row>) {
    exists x <- a, y <- b :: Collide(c.hash, Join(Covered(c, x)), Join(Covered(c, y)))
  }

  ghost predicate HitsGenesis(c: Codec, rows: seq<Row>) {
    exists x <- rows :: c.hash(Join(Covered(c, x))) == GENESIS
  }

  /** No separator in what is hashed before the payload. */
  predicate CleanHead(row: Row) {
    SEPARATOR !in row.prevHash && SEPARATOR !in row.eventId && SEPARATOR !in row.kind && SEPARATOR !in row.timestamp
  }

  ghost predicate CleanHeads(rows: seq<Row>) { forall row <- rows :: CleanHead(row) }

  /** Two rows that are hashed to one text say the same. */
  lemma SameTextSaysTheSame(c: Codec, x: Row, y: Row)
    requires CleanHead(x) && CleanHead(y) && Reread(c, x).Some? && Reread(c, y).Some?
    requires Join(Covered(c, x)) == Join(Covered(c, y))
    ensures SayTheSame(c, x, y)
  {
    JoinInjective(Covered(c, x), Covered(c, y));
  }

  /** One step back: the last rows agree and so do the roots before them, or
      they collide. */
  lemma LastRowsAgree(c: Codec, a: seq<Row>, b: seq<Row>)
    requires a != [] && b != [] && Tail(a) == Tail(b)
    requires ChainOk(c, a) && ChainOk(c, b) && CleanHeads(a) && CleanHeads(b)
    ensures HasCollision(c, a, b) ||
            (SayTheSame(c, a[|a| - 1], b[|b| - 1]) && Tail(a[..|a| - 1]) == Tail(b[..|b| - 1]))
  {
    var x, y := a[|a| - 1], b[|b| - 1];
    assert LinkOk(c, Tail(a[..|a| - 1]), x) && LinkOk(c, Tail(b[..|b| - 1]), y);
    if Join(Covered(c, x)) != Join(Covered(c, y)) {
      assert x in a && y in b && Collide(c.hash, Join(Covered(c, x)), Join(Covered(c, y)));
    } else {
      SameTextSaysTheSame(c, x, y);
    }
  }

  lemma RootOfNonEmpty(c: Codec, a: seq<Row>)
    requires a != [] && ChainOk(c, a)
    ensures Tail(a) == GENESIS ==> HitsGenesis(c, a)
  {
    assert LinkOk(c, Tail(a[..|a| - 1]), a[|a| - 1]);
  }

  lemma BreaksGrow(c: Codec, a: seq<Row>, b: seq<Row>, m: nat, n: nat)
    requires m <= |a| && n <= |b|
    ensures HasCollision(c, a[..m], b[..n]) ==> HasCollision(c, a, b)
    ensures HitsGenesis(c, a[..m]) ==> HitsGenesis(c, a)
  {
    assert forall x <- a[..m] :: x in a;
    assert forall y <- b[..n] :: y in b;
  }

  lemma SameContentGrows(c: Codec, a: seq<Row>, b: seq<Row>)
    requires a != [] && b != [] && SameContent(c, a[..|a| - 1], b[..|b| - 1])
    requires SayTheSame(c, a[|a| - 1], b[|b| - 1])
    ensures SameContent(c, a, b)
  {
    forall i | 0 <= i < |a| ensures SayTheSame(c, a[i], b[i]) {
      if i < |a| - 1 {
        assert a[i] == a[..|a| - 1][i] && b[i] == b[..|b| - 1][i];
      }
    }
  }

  /** The two logs say the same, or a hash was broken to make them agree. */
  ghost predicate Pinned(c: Codec, a: seq<Row>, b: seq<Row>) {
    SameContent(c, a, b) || HasCollision(c, a, b) || HitsGenesis(c, a) || HitsGenesis(c, b)
  }

  lemma PinnedGrows(c: Codec, a: seq<Row>, b: seq<Row>)
    requires a != [] && b != [] && Pinned(c, a[..|a| - 1], b[..|b| - 1])
    requires SayTheSame(c, a[|a| - 1], b[|b| - 1])
    ensures Pinned(c, a, b)
  {
    if SameContent(c, a[..|a| - 1], b[..|b| - 1]) {
      SameContentGrows(c, a, b);
    } else {
      BreaksGrow(c, a, b, |a| - 1, |b| - 1);
      BreaksGrow(c, b, a, |b| - 1, |a| - 1);
    }
  }

  /** Two logs that verify and share a root have the same event id, kind,
      timestamp and payload in every row, or two of their rows are a hash
      collision, or one of them hashes to the genesis value. */
  lemma {:induction false} RootPinsTheLog(c: Codec, a: seq<Row>, b: seq<Row>)
    requires ChainOk(c, a) && ChainOk(c, b) && Tail(a) == Tail(b)
    requires CleanHeads(a) && CleanHeads(b)
    ensures Pinned(c, a, b)
    decreases |a|
  {
    if a == [] && b == [] {
    } else if b == [] {
      RootOfNonEmpty(c, a);
    } else if a == [] {
      RootOfNonEmpty(c, b);
    } else {
      LastRowsAgree(c, a, b);
      if !HasCollision(c, a, b) {
        RootPinsTheLog(c, a[..|a| - 1], b[..|b| - 1]);
        PinnedGrows(c, a, b);
      }
    }
  }

  lemma {:induction false} ChainLinks(c: Codec, rows: seq<Row>, i: nat)
    requires ChainOk(c, rows) && i < |rows|
    ensures LinkOk(c, Tail(rows[..i]), rows[i])
  {
    if i < |rows| - 1 {
      ChainLinks(c, rows[..|rows| - 1], i);
      assert rows[..|rows| - 1][..i] == rows[..i];
    }
  }

  /** Two chains that differ in one row only link that row to the same hashes. */
  lemma OneRowDiffers(c: Codec, rows: seq<Row>, k: nat, row: Row)
    requires k < |rows| && ChainOk(c, rows) && ChainOk(c, rows[k := row]) && Tail(rows[k := row]) == Tail(rows)
    ensures LinkOk(c, Tail(rows[..k]), rows[k]) && LinkOk(c, Tail(rows[..k]), row) && row.thisHash == rows[k].thisHash
  {
    var rows' := rows[k := row];
    ChainLinks(c, rows, k);
    ChainLinks(c, rows', k);
    assert rows'[..k] == rows[..k];
    if k + 1 < |rows| {
      ChainLinks(c, rows, k + 1);
      ChainLinks(c, rows', k + 1);
      assert rows[..k + 1][k] == rows[k] && rows'[..k + 1][k] == row;
    }
  }

  /** In a log that verifies, putting another event id, kind, timestamp or payload
      in one row, whatever else is done to that row, is found out by the check or
      changes the root, or the two texts collide. */
  lemma TamperedRowIsFound(c: Codec, rows: seq<Row>, k: nat, row: Row)
    requires k < |rows| && Verify(c, GENESIS, rows) == Intact && CleanHead(rows[k]) && CleanHead(row)
    requires !SayTheSame(c, rows[k], row)
    ensures || Verify(c, GENESIS, rows[k := row]) != Intact
            || Tail(rows[k := row]) != Tail(rows)
            || Collide(c.hash, Join(Covered(c, rows[k])), Join(Covered(c, row)))
  {
    VerifyAcceptsChains(c, rows);
    VerifyAcceptsChains(c, rows[k := row]);
    if ChainOk(c, rows[k := row]) && Tail(rows[k := row]) == Tail(rows) {
      OneRowDiffers(c, rows, k, row);
      if Join(Covered(c, rows[k])) == Join(Covered(c, row)) {
        SameTextSaysTheSame(c, rows[k], row);
      }
    }
  }

  lemma OneRowLog(c: Codec, e: Event)
    requires RoundTrips(c)
    ensures AppendAll(c, [e]) == [NewRow(c, GENESIS, e)] && ChainOk(c, AppendAll(c, [e]))
    ensures Covered(c, NewRow(c, GENESIS, e)).eventId == e.eventId
  {
    assert [e][..0] == [];
    AppendedLogsVerify(c, [e]);
  }

  lemma ShiftedSeparator(prev: string, x: string, y: string, z: string, timestamp: string, text: string)
    ensures Join(Fields(prev, x + [SEPARATOR] + y, z, timestamp, text)) ==
            Join(Fields(prev, x, y + [SEPARATOR] + z, timestamp, text))
  {
    var s := [SEPARATOR];
    assert prev + s + (x + s + y) + s + z == prev + s + x + s + (y + s + z);
  }

  /** Why the ids must be free of the separator: these two one-row logs verify
      and share a root under every hash, yet name different events. */
  lemma SeparatorInIdsIsAmbiguous(c: Codec, x: string, y: string, z: string, timestamp: string, payload: Json)
    requires RoundTrips(c)
    ensures var a := AppendAll(c, [Event(x + [SEPARATOR] + y, z, None, None, timestamp, payload)]);
            var b := AppendAll(c, [Event(x, y + [SEPARATOR] + z, None, None, timestamp, payload)]);
            ChainOk(c, a) && ChainOk(c, b) && Tail(a) == Tail(b) && !SameContent(c, a, b)
  {
    var s := [SEPARATOR];
    OneRowLog(c, Event(x + s + y, z, None, None, timestamp, payload));
    OneRowLog(c, Event(x, y + s + z, None, None, timestamp, payload));
    ShiftedSeparator(GENESIS, x, y, z, timestamp, c.canon(payload));
    assert |x + s + y| > |x|;
  }

  function Relabel(row: Row, runId: Option<string>, sampleId: Option<string>): Row {
    row.(runId := runId, sampleId := sampleId)
  }

  /** Run and sample ids are outside the hash: rewriting them in any row leaves
      the verdict and the root as they were. */
  lemma {:induction false} RunIdsAreNotCovered(c: Codec, rows: seq<Row>, k: nat, runId: Option<string>,
                                               sampleId: Option<string>)
    requires k < |rows|
    ensures var rows' := rows[k := Relabel(rows[k], runId, sampleId)];
            (ChainOk(c, rows') <==> ChainOk(c, rows)) && Tail(rows') == Tail(rows)
  {
    var rows' := rows[k := Relabel(rows[k], runId, sampleId)];
    var front := rows[..|rows| - 1];
    if k < |front| {
      RunIdsAreNotCovered(c, front, k, runId, sampleId);
      assert rows'[..|front|] == front[k := Relabel(rows[k], runId, sampleId)];
    } else {
      assert rows'[..|front|] == front;
    }
  }
}
