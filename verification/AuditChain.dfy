// The hash chain of one audit partition: what verify() reports about a table of
// rows of any signature version. HMAC is a parameter, taken to be free of
// collisions.
module AuditChain {
  import opened Wrappers

  // legacy signs a version-1 row by itself; sign signs a row of version 2 or 3
  // over the signature it points at.
  datatype Keyed = Keyed(
    legacy: (string, int) -> string,
    sign: (int, string, string, int) -> string,
    genesis: string)

  // No row of version 2 or 3 is signed like this.
  ghost predicate Anchors(h: Keyed, from: string) {
    forall v, p, c, t :: h.sign(v, p, c, t) != from
  }

  ghost predicate CollisionFree(h: Keyed) {
    && (forall v, p, c, t, w, q, d, u ::
          h.sign(v, p, c, t) == h.sign(w, q, d, u) ==> v == w && p == q && c == d && t == u)
    && (forall c, t, d, u :: h.legacy(c, t) == h.legacy(d, u) ==> c == d && t == u)
    && Anchors(h, h.genesis)
    && (forall c, t :: Anchors(h, h.legacy(c, t)))
  }

  // id stands for the rank of the row's id among all ids; content for the signed
  // fields as the row's version serialises them.
  datatype Row = Row(
    id: nat,
    version: int,
    content: string,
    createdAt: int,
    signature: Option<string>,
    prev: Option<string>)

  predicate Chained(r: Row) {
    (r.version == 2 || r.version == 3) && r.prev.Some?
  }

  predicate SignedRow(h: Keyed, r: Row) {
    if r.version == 1 then r.signature == Some(h.legacy(r.content, r.createdAt))
    else Chained(r) && r.signature == Some(h.sign(r.version, r.prev.value, r.content, r.createdAt))
  }

  // row.signature ?? ""
  function Sig(r: Row): string {
    if r.signature.Some? then r.signature.value else ""
  }

  // Later by created_at, then by id.
  predicate After(r: Row, q: Row) {
    r.createdAt > q.createdAt || (r.createdAt == q.createdAt && r.id > q.id)
  }

  function Insert(row: Row, rows: seq<Row>): seq<Row> {
    if rows == [] || !After(row, rows[0]) then [row] + rows else [rows[0]] + Insert(row, rows[1..])
  }

  // ORDER BY created_at ASC, id ASC
  function Load(table: seq<Row>): seq<Row> {
    if table == [] then [] else Insert(table[0], Load(table[1..]))
  }

  // ---- verify --------------------------------------------------------------

  datatype Reason = Valid | SignatureMismatch | ChainBreak | MissingPrev

  // The chain starts at the signature of the last version-1 row, or at genesis.
  function Anchor(h: Keyed, rows: seq<Row>): string {
    if rows == [] then h.genesis
    else
      var last := rows[|rows| - 1];
      if last.version != 1 then Anchor(h, rows[..|rows| - 1])
      else if last.signature.Some? then last.signature.value
      else h.genesis
  }

  // byPrev: a later row replaces an earlier one with the same pointer.
  function ByPrev(rows: seq<Row>): map<string, Row> {
    if rows == [] then map[]
    else
      var last, before := rows[|rows| - 1], ByPrev(rows[..|rows| - 1]);
      if Chained(last) then before[last.prev.value := last] else before
  }

  ghost predicate Table(rows: seq<Row>) {
    forall i, j :: 0 <= i < j < |rows| ==> rows[i].id != rows[j].id
  }

  function IdsOf(rows: seq<Row>): set<nat> {
    set r | r in rows :: r.id
  }

  // The rows the pointer walk visits from a cursor on.
  ghost function Trail(rows: seq<Row>, cursor: string, visited: set<nat>): seq<Row>
    decreases IdsOf(rows) - visited
  {
    var byPrev := ByPrev(rows);
    if cursor !in byPrev || byPrev[cursor].id in visited || byPrev[cursor] !in rows then []
    else
      var row := byPrev[cursor];
      [row] + Trail(rows, Sig(row), visited + {row.id})
  }

  // A row that is not in the chain is judged by itself.
  function Alone(h: Keyed, row: Row): Reason {
    if row.version == 1 && SignedRow(h, row) then Valid
    else if (row.version == 2 || row.version == 3) && row.prev.None? then MissingPrev
    else SignatureMismatch
  }

  ghost function Verdict(h: Keyed, rows: seq<Row>, row: Row): Reason {
    if !Chained(row) then Alone(h, row)
    else if row !in Trail(rows, Anchor(h, rows), {}) then ChainBreak
    else if SignedRow(h, row) then Valid
    else SignatureMismatch
  }

  lemma {:induction false} ByPrevIs(rows: seq<Row>, cursor: string)
    ensures cursor in ByPrev(rows) ==>
              var r := ByPrev(rows)[cursor];
              r in rows && Chained(r) && r.prev == Some(cursor)
    ensures cursor !in ByPrev(rows) ==> forall r | r in rows && Chained(r) :: r.prev != Some(cursor)
  {
    if rows != [] {
      ByPrevIs(rows[..|rows| - 1], cursor);
    }
  }

  lemma TrailStep(rows: seq<Row>, r: Row, cursor: string, visited: set<nat>)
    requires cursor in ByPrev(rows) && ByPrev(rows)[cursor] == r && r in rows && r.id !in visited
    ensures Trail(rows, cursor, visited) == [r] + Trail(rows, Sig(r), visited + {r.id})
  {
  }

  lemma SameId(rows: seq<Row>, r: Row, q: Row)
    requires Table(rows) && r in rows && q in rows && r.id == q.id
    ensures r == q
  {
  }

  // The rows that are judged by themselves, and the pointers of the others.
  method Classify(h: Keyed, rows: seq<Row>)
    returns (results: map<nat, Reason>, byPrev: map<string, Row>, start: string)
    requires Table(rows)
    ensures byPrev == ByPrev(rows) && start == Anchor(h, rows)
    ensures forall id :: id in results <==> exists r :: r in rows && !Chained(r) && r.id == id
    ensures forall r | r in rows && !Chained(r) :: results[r.id] == Alone(h, r)
  {
    results, byPrev, start := map[], map[], h.genesis;
    for i := 0 to |rows|
      invariant byPrev == ByPrev(rows[..i]) && start == Anchor(h, rows[..i])
      invariant forall id :: id in results <==> exists j :: 0 <= j < i && !Chained(rows[j]) && rows[j].id == id
      invariant forall j | 0 <= j < i && !Chained(rows[j]) :: results[rows[j].id] == Alone(h, rows[j])
    {
      var row := rows[i];
      assert rows[..i + 1][..i] == rows[..i];
      if row.version == 1 {
        results := results[row.id := if row.signature == Some(h.legacy(row.content, row.createdAt)) then Valid
                                     else SignatureMismatch];
        start := if row.signature.Some? then row.signature.value else h.genesis;
      } else if row.version != 2 && row.version != 3 {
        results := results[row.id := SignatureMismatch];
      } else if row.prev.Some? {
        byPrev := byPrev[row.prev.value := row];
      } else {
        results := results[row.id := MissingPrev];
      }
    }
    assert rows[..|rows|] == rows;
  }

  function Signed(h: Keyed, r: Row): Reason {
    if SignedRow(h, r) then Valid else SignatureMismatch
  }

  // The verdicts of the rows walked so far.
  ghost predicate Judged(h: Keyed, rows: seq<Row>, trail: seq<Row>, walked: map<nat, Reason>) {
    walked.Keys == IdsOf(trail) && forall r | r in trail :: r in rows && Chained(r) && walked[r.id] == Signed(h, r)
  }

  lemma JudgedSnoc(h: Keyed, rows: seq<Row>, trail: seq<Row>, walked: map<nat, Reason>, row: Row)
    requires Judged(h, rows, trail, walked) && row in rows && Chained(row) && row.id !in walked
    ensures Judged(h, rows, trail + [row], walked[row.id := Signed(h, row)])
    ensures IdsOf(trail + [row]) == IdsOf(trail) + {row.id}
  {
  }

  lemma TrailSnoc(rows: seq<Row>, trail: seq<Row>, row: Row, cursor: string, visited: set<nat>, whole: seq<Row>)
    requires trail + Trail(rows, cursor, visited) == whole
    requires cursor in ByPrev(rows) && ByPrev(rows)[cursor] == row && row in rows && row.id !in visited
    ensures (trail + [row]) + Trail(rows, Sig(row), visited + {row.id}) == whole
  {
    TrailStep(rows, row, cursor, visited);
  }

  // The walk along the pointers.
  method Follow(h: Keyed, rows: seq<Row>, byPrev: map<string, Row>, start: string) returns (walked: map<nat, Reason>)
    requires Table(rows) && byPrev == ByPrev(rows)
    ensures Judged(h, rows, Trail(rows, start, {}), walked)
  {
    walked := map[];
    var cursor := start;
    var visited: set<nat> := {};
    ghost var whole := Trail(rows, start, {});
    ghost var trail: seq<Row> := [];
    while cursor in byPrev
      invariant visited <= IdsOf(rows) && visited == IdsOf(trail)
      invariant trail + Trail(rows, cursor, visited) == whole
      invariant Judged(h, rows, trail, walked)
      decreases IdsOf(rows) - visited
    {
      ByPrevIs(rows, cursor);
      var row := byPrev[cursor];
      if row.id in visited { break; }
      TrailSnoc(rows, trail, row, cursor, visited, whole);
      JudgedSnoc(h, rows, trail, walked, row);
      visited := visited + {row.id};
      var expected := h.sign(row.version, row.prev.value, row.content, row.createdAt);
      walked := walked[row.id := if row.signature == Some(expected) then Valid else SignatureMismatch];
      cursor := if row.signature.Some? then row.signature.value else "";
      trail := trail + [row];
    }
    assert trail == whole;
  }

  // The chained rows not reached by the walk.
  method MarkBreaks(rows: seq<Row>, judged: map<nat, Reason>) returns (results: map<nat, Reason>)
    requires forall r | r in rows && !Chained(r) :: r.id in judged
    ensures forall r | r in rows :: r.id in results
    ensures forall id | id in results :: results[id] == if id in judged then judged[id] else ChainBreak
  {
    results := judged;
    for i := 0 to |rows|
      invariant forall j | 0 <= j < i :: rows[j].id in results
      invariant forall id | id in results :: results[id] == if id in judged then judged[id] else ChainBreak
      invariant judged.Keys <= results.Keys
    {
      if rows[i].id !in results { results := results[rows[i].id := ChainBreak]; }
    }
  }

  // ---- loading -------------------------------------------------------------

  ghost predicate Sorted(rows: seq<Row>) {
    forall i, j :: 0 <= i < j < |rows| ==> After(rows[j], rows[i])
  }

  ghost predicate SameRows(rows: seq<Row>, other: seq<Row>) {
    forall r :: r in rows <==> r in other
  }

  lemma {:induction false} InsertElements(row: Row, rows: seq<Row>)
    ensures forall r :: r in Insert(row, rows) <==> r == row || r in rows
  {
    if rows != [] && After(row, rows[0]) {
      InsertElements(row, rows[1..]);
      assert rows == [rows[0]] + rows[1..];
    }
  }

  lemma {:induction false} InsertSorted(row: Row, rows: seq<Row>)
    requires Sorted(rows) && forall r | r in rows :: r.id != row.id
    ensures Sorted(Insert(row, rows))
  {
    if rows != [] && After(row, rows[0]) {
      var rest := Insert(row, rows[1..]);
      InsertSorted(row, rows[1..]);
      InsertElements(row, rows[1..]);
      forall j | 0 <= j < |rest| ensures After(rest[j], rows[0]) {
        assert rest[j] in rest;
        if rest[j] in rows[1..] {
          var i :| 0 <= i < |rows[1..]| && rows[1..][i] == rest[j];
          assert rows[i + 1] == rest[j];
        }
      }
    } else if rows != [] {
      assert rows[0] in rows && After(rows[0], row);
    }
  }

  lemma {:induction false} LoadSorts(table: seq<Row>)
    requires Table(table)
    ensures Sorted(Load(table)) && SameRows(Load(table), table)
  {
    if table != [] {
      LoadSorts(table[1..]);
      InsertElements(table[0], Load(table[1..]));
      assert table == [table[0]] + table[1..];
      forall r | r in Load(table[1..]) ensures r.id != table[0].id {
        var i :| 0 <= i < |table[1..]| && table[1..][i] == r;
        assert table[i + 1] == r;
      }
      InsertSorted(table[0], Load(table[1..]));
    }
  }

  lemma LoadIs(table: seq<Row>)
    requires Table(table)
    ensures Sorted(Load(table)) && SameRows(Load(table), table) && Table(Load(table))
  {
    LoadSorts(table);
    var rows := Load(table);
    forall i, j | 0 <= i < j < |rows| ensures rows[i].id != rows[j].id {
      assert After(rows[j], rows[i]) && rows[i] in rows && rows[j] in rows;
    }
  }

  // The three passes over the rows as they were loaded.
  method VerifyRows(h: Keyed, rows: seq<Row>) returns (results: map<nat, Reason>)
    requires Table(rows)
    ensures forall row | row in rows :: row.id in results && results[row.id] == Verdict(h, rows, row)
  {
    var judged, byPrev, start := Classify(h, rows);
    var walked := Follow(h, rows, byPrev, start);
    results := MarkBreaks(rows, judged + walked);
    ghost var trail := Trail(rows, start, {});
    forall row | row in rows ensures results[row.id] == Verdict(h, rows, row) {
      if row.id in walked {
        var r :| r in trail && r.id == row.id;
        SameId(rows, r, row);
      } else if row.id in judged {
        var r :| r in rows && !Chained(r) && r.id == row.id;
        SameId(rows, r, row);
      }
    }
  }

  // What verify reports of a row of a table.
  ghost function Reported(h: Keyed, table: seq<Row>, row: Row): Reason {
    Verdict(h, Load(table), row)
  }

  method Verify(h: Keyed, table: seq<Row>) returns (results: map<nat, Reason>)
    requires Table(table)
    ensures forall row | row in table :: row.id in results && results[row.id] == Reported(h, table, row)
  {
    LoadIs(table);
    results := VerifyRows(h, Load(table));
  }

  // The reason each row is reported with, by its version and its pointer: one that
  // is not chained by itself, a chained one as valid only where it is signed over
  // its pointer, and the two ways in which it can fail.
  lemma ReasonsAre(h: Keyed, table: seq<Row>, row: Row)
    ensures var reason := Reported(h, table, row);
            && (row.version == 1 ==>
                  reason == if row.signature == Some(h.legacy(row.content, row.createdAt)) then Valid
                            else SignatureMismatch)
            && (row.version !in {1, 2, 3} ==> reason == SignatureMismatch)
            && (row.version in {2, 3} && row.prev == None ==> reason == MissingPrev)
            && (row.version in {2, 3} && row.prev.Some? ==>
                  var signed := row.signature == Some(h.sign(row.version, row.prev.value, row.content, row.createdAt));
                  || reason == ChainBreak
                  || reason == if signed then Valid else SignatureMismatch)
  {
  }

  // Rows are loaded by time and then by id, each of the table and no other.
  lemma LoadOrders(table: seq<Row>)
    requires Table(table)
    ensures var rows := Load(table);
            && (forall r :: r in rows <==> r in table)
            && forall i, j :: 0 <= i < j < |rows| ==>
                 rows[i].createdAt < rows[j].createdAt
                 || (rows[i].createdAt == rows[j].createdAt && rows[i].id < rows[j].id)
  {
    LoadIs(table);
    assert forall i, j | 0 <= i < j < |Load(table)| :: After(Load(table)[j], Load(table)[i]);
  }

  // The chain starts at the last version-1 row, at its signature if it has one, or
  // at genesis where there is no such row.
  lemma {:induction false} AnchorIs(h: Keyed, rows: seq<Row>, k: nat)
    requires k <= |rows| && (k < |rows| ==> rows[k].version == 1)
    requires forall i | 0 <= i < |rows| && (i > k || k == |rows|) :: rows[i].version != 1
    ensures Anchor(h, rows) == if k < |rows| && rows[k].signature.Some? then rows[k].signature.value else h.genesis
  {
    if rows != [] {
      var n := |rows| - 1;
      if k < n { AnchorIs(h, rows[..n], k); } else if k > n { AnchorIs(h, rows[..n], n); }
    }
  }

  lemma {:induction false} ByPrevIsLast(rows: seq<Row>, k: nat, cursor: string)
    requires k < |rows| && rows[k].version in {2, 3} && rows[k].prev == Some(cursor)
    requires forall i | k < i < |rows| && rows[i].version in {2, 3} :: rows[i].prev != Some(cursor)
    ensures cursor in ByPrev(rows) && ByPrev(rows)[cursor] == rows[k]
  {
    if k < |rows| - 1 {
      ByPrevIsLast(rows[..|rows| - 1], k, cursor);
    }
  }

  lemma {:induction false} TrailIsByPrev(rows: seq<Row>, cursor: string, visited: set<nat>)
    ensures forall r | r in Trail(rows, cursor, visited) ::
              r.prev.Some? && r.prev.value in ByPrev(rows) && ByPrev(rows)[r.prev.value] == r
    decreases IdsOf(rows) - visited
  {
    ByPrevIs(rows, cursor);
    if cursor in ByPrev(rows) && ByPrev(rows)[cursor].id !in visited {
      TrailIsByPrev(rows, Sig(ByPrev(rows)[cursor]), visited + {ByPrev(rows)[cursor].id});
    }
  }

  // Of two rows with one pointer the one loaded first is always reported: the
  // later one takes its place.
  lemma ForkReportsEarlier(h: Keyed, table: seq<Row>, i: nat, j: nat)
    requires Table(table)
    requires var rows := Load(table);
             && i < j < |rows| && rows[i].version in {2, 3} && rows[j].version in {2, 3}
             && rows[i].prev.Some? && rows[i].prev == rows[j].prev
    ensures Reported(h, table, Load(table)[i]) == ChainBreak
  {
    var rows := Load(table);
    var cursor := rows[i].prev.value;
    LoadIs(table);
    var k := LastWithPointer(rows, j);
    ByPrevIsLast(rows, k, cursor);
    TrailIsByPrev(rows, Anchor(h, rows), {});
  }

  lemma LastWithPointer(rows: seq<Row>, j: nat) returns (k: nat)
    requires j < |rows| && rows[j].version in {2, 3}
    ensures j <= k < |rows| && rows[k].version in {2, 3} && rows[k].prev == rows[j].prev
    ensures forall i | k < i < |rows| && rows[i].version in {2, 3} :: rows[i].prev != rows[k].prev
    decreases |rows| - j
  {
    k := j;
    if i: nat :| j < i < |rows| && rows[i].version in {2, 3} && rows[i].prev == rows[j].prev {
      k := LastWithPointer(rows, i);
    }
  }

  // ---- chains --------------------------------------------------------------

  function Tip(c: seq<Row>, from: string): string {
    if c == [] then from else Sig(c[|c| - 1])
  }

  // Each row points at the one before it, the first at `from`.
  ghost predicate Linked(c: seq<Row>, from: string) {
    c == [] || (Linked(c[..|c| - 1], from) && c[|c| - 1].prev == Some(Tip(c[..|c| - 1], from)))
  }

  ghost predicate Chain(h: Keyed, c: seq<Row>, from: string) {
    Linked(c, from) && forall r | r in c :: Chained(r) && SignedRow(h, r)
  }

  lemma {:induction false} LinkedAt(c: seq<Row>, from: string, i: nat)
    requires Linked(c, from) && i < |c|
    ensures c[i].prev == Some(Tip(c[..i], from))
  {
    if i < |c| - 1 {
      LinkedAt(c[..|c| - 1], from, i);
      assert c[..|c| - 1][..i] == c[..i];
    }
  }

  lemma SameSignature(h: Keyed, r: Row, q: Row)
    requires CollisionFree(h) && Chained(r) && Chained(q) && SignedRow(h, r) && SignedRow(h, q)
    ensures Sig(r) == Sig(q) ==> r.prev == q.prev
  {
  }

  // Along a chain no value is met twice as the tip.
  lemma {:induction false} TipsDiffer(h: Keyed, c: seq<Row>, from: string, i: nat, j: nat)
    requires CollisionFree(h) && Anchors(h, from) && Chain(h, c, from) && i < j <= |c|
    ensures Tip(c[..i], from) != Tip(c[..j], from)
    decreases i
  {
    assert c[j - 1] in c;
    LinkedAt(c, from, j - 1);
    if i > 0 {
      assert c[i - 1] in c;
      LinkedAt(c, from, i - 1);
      TipsDiffer(h, c, from, i - 1, j - 1);
      SameSignature(h, c[i - 1], c[j - 1]);
    }
  }

  // So no two rows of it share a pointer, and nothing points at its end.
  lemma PointersDiffer(h: Keyed, c: seq<Row>, from: string)
    requires CollisionFree(h) && Anchors(h, from) && Chain(h, c, from)
    ensures forall i, j :: 0 <= i < j < |c| ==> c[i].prev != c[j].prev
    ensures forall r | r in c :: r.prev != Some(Tip(c, from))
  {
    forall i, j | 0 <= i < j < |c| ensures c[i].prev != c[j].prev {
      LinkedAt(c, from, i);
      LinkedAt(c, from, j);
      TipsDiffer(h, c, from, i, j);
    }
    forall r | r in c ensures r.prev != Some(Tip(c, from)) {
      var i :| 0 <= i < |c| && c[i] == r;
      LinkedAt(c, from, i);
      TipsDiffer(h, c, from, i, |c|);
      assert c[..|c|] == c;
    }
  }

  // ---- what the walk visits ------------------------------------------------

  // c is the walk: linked rows of the table, the only ones with their pointers,
  // and nothing points at the last of them.
  ghost predicate Walkable(rows: seq<Row>, c: seq<Row>, from: string) {
    && Linked(c, from) && Table(c)
    && (forall r | r in c :: r in rows && Chained(r))
    && (forall r, q | r in c && q in rows && Chained(q) && q.prev == r.prev :: q == r)
    && (forall q | q in rows && Chained(q) :: q.prev != Some(Tip(c, from)))
  }

  // At place k of the walk the next row is c[k].
  lemma NextRow(rows: seq<Row>, c: seq<Row>, from: string, k: nat)
    requires Walkable(rows, c, from) && k < |c|
    ensures var cursor := Tip(c[..k], from);
            cursor in ByPrev(rows) && ByPrev(rows)[cursor] == c[k] && c[k] in rows
    ensures Tip(c[..k + 1], from) == Sig(c[k])
  {
    var cursor := Tip(c[..k], from);
    assert c[k] in c;
    LinkedAt(c, from, k);
    ByPrevIs(rows, cursor);
  }

  lemma {:induction false} TrailFrom(rows: seq<Row>, c: seq<Row>, from: string, k: nat, visited: set<nat>)
    requires Walkable(rows, c, from) && k <= |c| && visited == IdsOf(c[..k])
    ensures Trail(rows, Tip(c[..k], from), visited) == c[k..]
    decreases |c| - k
  {
    if k == |c| {
      assert c[..k] == c;
      ByPrevIs(rows, Tip(c, from));
    } else {
      NextRow(rows, c, from, k);
      IdsSnoc(c, k);
      TrailStep(rows, c[k], Tip(c[..k], from), visited);
      TrailFrom(rows, c, from, k + 1, visited + {c[k].id});
      RestFrom(c, k);
    }
  }

  lemma RestFrom(c: seq<Row>, k: nat)
    requires k < |c|
    ensures c[k..] == [c[k]] + c[k + 1..]
  {
  }

  lemma IdsSnoc(c: seq<Row>, k: nat)
    requires k < |c| && Table(c)
    ensures IdsOf(c[..k + 1]) == IdsOf(c[..k]) + {c[k].id} && c[k].id !in IdsOf(c[..k])
  {
  }

  lemma TrailIs(rows: seq<Row>, c: seq<Row>, from: string)
    requires Walkable(rows, c, from)
    ensures Trail(rows, from, {}) == c
  {
    assert c[..0] == [] && c[0..] == c;
    TrailFrom(rows, c, from, 0, {});
  }

  // c lists the rows of version 2 and 3, each once.
  ghost predicate ChainRows(rows: seq<Row>, c: seq<Row>) {
    Table(c) && forall r :: r in c <==> r in rows && r.version != 1
  }

  lemma SamePointer(c: seq<Row>, part: seq<Row>, rows: seq<Row>)
    requires forall i, j :: 0 <= i < j < |c| ==> c[i].prev != c[j].prev
    requires (forall r | r in part :: r in c) && (forall q | q in rows && Chained(q) :: q in c)
    ensures forall r, q | r in part && q in rows && Chained(q) && q.prev == r.prev :: q == r
  {
  }

  lemma ChainWalkable(h: Keyed, rows: seq<Row>, c: seq<Row>, from: string)
    requires CollisionFree(h) && Anchors(h, from) && Chain(h, c, from) && ChainRows(rows, c)
    ensures Walkable(rows, c, from)
  {
    PointersDiffer(h, c, from);
    SamePointer(c, c, rows);
  }

  // ---- main results on verify ----------------------------------------------

  lemma {:induction false} LinkedCons(first: Row, rest: seq<Row>, from: string)
    requires Linked(rest, Sig(first)) && first.prev == Some(from)
    ensures Linked([first] + rest, from)
  {
    var c := [first] + rest;
    if rest == [] {
      assert c[..0] == [];
    } else {
      var n := |rest| - 1;
      LinkedCons(first, rest[..n], from);
      assert c[..|c| - 1] == [first] + rest[..n];
    }
  }

  lemma {:induction false} TrailLinked(rows: seq<Row>, cursor: string, visited: set<nat>)
    requires Table(rows)
    ensures var c := Trail(rows, cursor, visited);
            Table(c) && Linked(c, cursor) && forall r | r in c :: r in rows && Chained(r) && r.id !in visited
    decreases IdsOf(rows) - visited
  {
    ByPrevIs(rows, cursor);
    if cursor in ByPrev(rows) && ByPrev(rows)[cursor].id !in visited {
      var row := ByPrev(rows)[cursor];
      TrailLinked(rows, Sig(row), visited + {row.id});
      LinkedCons(row, Trail(rows, Sig(row), visited + {row.id}), cursor);
    }
  }

  // Where the version-1 rows are signed, no chain runs into its own start.
  lemma {:induction false} AnchorIsFresh(h: Keyed, rows: seq<Row>)
    requires CollisionFree(h) && forall r | r in rows && r.version == 1 :: SignedRow(h, r)
    ensures Anchors(h, Anchor(h, rows))
  {
    if rows != [] {
      assert rows[|rows| - 1] in rows;
      AnchorIsFresh(h, rows[..|rows| - 1]);
    }
  }

  ghost predicate AllValid(h: Keyed, rows: seq<Row>) {
    forall r | r in rows :: Verdict(h, rows, r) == Valid
  }

  // Every row is reported valid exactly when every row is signed and those of
  // version 2 and 3, in some order, are one chain from the anchor.
  lemma AllValidExactlyWhen(h: Keyed, rows: seq<Row>)
    requires CollisionFree(h) && Table(rows)
    ensures AllValid(h, rows) <==>
            (forall r | r in rows :: SignedRow(h, r))
            && (exists c :: Chain(h, c, Anchor(h, rows)) && ChainRows(rows, c))
  {
    var from := Anchor(h, rows);
    if AllValid(h, rows) {
      TrailLinked(rows, from, {});
      var trail := Trail(rows, from, {});
      assert Chain(h, trail, from) && ChainRows(rows, trail);
    }
    if forall r | r in rows :: SignedRow(h, r) {
      if c :| Chain(h, c, from) && ChainRows(rows, c) { ChainIsValid(h, rows, c); }
    }
  }

  lemma ChainIsValid(h: Keyed, rows: seq<Row>, c: seq<Row>)
    requires CollisionFree(h) && Chain(h, c, Anchor(h, rows)) && ChainRows(rows, c)
    requires forall r | r in rows :: SignedRow(h, r)
    ensures AllValid(h, rows)
  {
    AnchorIsFresh(h, rows);
    ChainWalkable(h, rows, c, Anchor(h, rows));
    TrailIs(rows, c, Anchor(h, rows));
  }

  // ---- the order of loading ------------------------------------------------

  lemma {:induction false} AnchorOfParts(h: Keyed, base: seq<Row>, c: seq<Row>)
    requires forall r | r in c :: r.version != 1
    ensures Anchor(h, base + c) == Anchor(h, base)
  {
    if c == [] {
      assert base + c == base;
    } else {
      var rows := base + c;
      assert rows[..|rows| - 1] == base + c[..|c| - 1];
      AnchorOfParts(h, base, c[..|c| - 1]);
    }
  }

  // The anchor of loaded rows is that of the latest version-1 row among them.
  lemma {:induction false} AnchorIsLatest(h: Keyed, rows: seq<Row>, last: Row)
    requires Sorted(rows) && last in rows && last.version == 1
    requires forall q | q in rows && q.version == 1 :: q == last || After(last, q)
    ensures Anchor(h, rows) == if last.signature.Some? then last.signature.value else h.genesis
  {
    var n := |rows| - 1;
    assert rows[n] in rows && rows == rows[..n] + [rows[n]];
    if rows[n] != last {
      var i :| 0 <= i < n && rows[i] == last;
      assert After(rows[n], rows[i]);
      AnchorIsLatest(h, rows[..n], last);
    }
  }

  lemma {:induction false} AnchorIsGenesis(h: Keyed, rows: seq<Row>)
    requires forall r | r in rows :: r.version != 1
    ensures Anchor(h, rows) == h.genesis
  {
    if rows != [] {
      assert rows[|rows| - 1] in rows;
      AnchorIsGenesis(h, rows[..|rows| - 1]);
    }
  }

  // Version-1 rows of which the last is the latest.
  ghost predicate LatestLast(base: seq<Row>) {
    && (forall r | r in base :: r.version == 1)
    && (base != [] ==> forall r | r in base :: r == base[|base| - 1] || After(base[|base| - 1], r))
  }

  lemma LoadKeepsAnchor(h: Keyed, base: seq<Row>, c: seq<Row>)
    requires Table(base + c) && LatestLast(base) && forall r | r in c :: r.version != 1
    ensures Anchor(h, Load(base + c)) == Anchor(h, base) == Anchor(h, base + c)
  {
    var rows := Load(base + c);
    LoadIs(base + c);
    AnchorOfParts(h, base, c);
    if base == [] {
      AnchorIsGenesis(h, rows);
    } else {
      var last := base[|base| - 1];
      assert last in base && last in base + c;
      AnchorIsLatest(h, rows, last);
    }
  }

  // No two chained rows share a pointer.
  ghost predicate OwnPointers(rows: seq<Row>) {
    forall r, q | r in rows && q in rows && Chained(r) && Chained(q) && r.prev == q.prev :: r == q
  }

  lemma SameByPrev(rows: seq<Row>, other: seq<Row>, cursor: string)
    requires SameRows(rows, other) && OwnPointers(rows)
    ensures cursor in ByPrev(rows) <==> cursor in ByPrev(other)
    ensures cursor in ByPrev(rows) ==> ByPrev(rows)[cursor] == ByPrev(other)[cursor]
  {
    ByPrevIs(rows, cursor);
    ByPrevIs(other, cursor);
  }

  lemma {:induction false} SameTrail(rows: seq<Row>, other: seq<Row>, cursor: string, visited: set<nat>)
    requires SameRows(rows, other) && OwnPointers(rows)
    ensures Trail(rows, cursor, visited) == Trail(other, cursor, visited)
    decreases IdsOf(rows) - visited
  {
    SameByPrev(rows, other, cursor);
    ByPrevIs(rows, cursor);
    assert IdsOf(rows) == IdsOf(other);
    if cursor in ByPrev(rows) && ByPrev(rows)[cursor].id !in visited {
      var row := ByPrev(rows)[cursor];
      TrailStep(rows, row, cursor, visited);
      TrailStep(other, row, cursor, visited);
      SameTrail(rows, other, Sig(row), visited + {row.id});
    }
  }

  function LegacyPart(rows: seq<Row>): seq<Row> {
    if rows == [] then []
    else LegacyPart(rows[..|rows| - 1]) + if rows[|rows| - 1].version == 1 then [rows[|rows| - 1]] else []
  }

  lemma {:induction false} AnchorOfLegacyPart(h: Keyed, rows: seq<Row>)
    ensures Anchor(h, rows) == Anchor(h, LegacyPart(rows))
  {
    if rows != [] {
      var last, before := rows[|rows| - 1], LegacyPart(rows[..|rows| - 1]);
      AnchorOfLegacyPart(h, rows[..|rows| - 1]);
      if last.version == 1 {
        assert LegacyPart(rows) == before + [last];
      } else {
        assert LegacyPart(rows) == before + [] == before;
      }
    }
  }

  // Rows with one anchor are judged alike in any order: as a whole always, one by
  // one where no two share a pointer.
  lemma SameAnchorSameVerdicts(h: Keyed, rows: seq<Row>, other: seq<Row>)
    requires CollisionFree(h) && Table(rows) && Table(other) && SameRows(rows, other)
    requires Anchor(h, rows) == Anchor(h, other)
    ensures AllValid(h, rows) <==> AllValid(h, other)
    ensures OwnPointers(rows) ==> forall r :: Verdict(h, rows, r) == Verdict(h, other, r)
  {
    AllValidExactlyWhen(h, rows);
    AllValidExactlyWhen(h, other);
    assert forall c :: ChainRows(rows, c) <==> ChainRows(other, c);
    if OwnPointers(rows) { SameTrail(rows, other, Anchor(h, rows), {}); }
  }

  // So only the order of the version-1 rows matters.
  lemma OnlyLegacyOrderMatters(h: Keyed, rows: seq<Row>, other: seq<Row>)
    requires CollisionFree(h) && Table(rows) && Table(other) && SameRows(rows, other)
    requires LegacyPart(rows) == LegacyPart(other)
    ensures AllValid(h, rows) <==> AllValid(h, other)
    ensures OwnPointers(rows) ==> forall r :: Verdict(h, rows, r) == Verdict(h, other, r)
  {
    AnchorOfLegacyPart(h, rows);
    AnchorOfLegacyPart(h, other);
    SameAnchorSameVerdicts(h, rows, other);
  }

  // Nothing is reported of the table.
  ghost predicate Passes(h: Keyed, table: seq<Row>) {
    forall r | r in table :: Reported(h, table, r) == Valid
  }

  // Version-1 rows up to the latest, then others: loading changes no verdict.
  lemma LoadingIsHarmless(h: Keyed, base: seq<Row>, c: seq<Row>)
    requires CollisionFree(h) && Table(base + c) && LatestLast(base) && forall r | r in c :: r.version != 1
    ensures Passes(h, base + c) <==> AllValid(h, base + c)
    ensures OwnPointers(base + c) ==> forall r :: Reported(h, base + c, r) == Verdict(h, base + c, r)
  {
    LoadIs(base + c);
    LoadKeepsAnchor(h, base, c);
    SameAnchorSameVerdicts(h, base + c, Load(base + c));
  }

  // ---- tampering -----------------------------------------------------------

  // A partition that was upgraded: version-1 rows, listed as they are loaded, then
  // one chain, whatever its times.
  ghost predicate Upgraded(h: Keyed, base: seq<Row>, c: seq<Row>) {
    && Table(base + c) && Chain(h, c, Anchor(h, base)) && Sorted(base)
    && forall r | r in base :: r.version == 1 && SignedRow(h, r)
  }

  // The same rows but for what they say and when.
  ghost predicate SameShape(c: seq<Row>, d: seq<Row>) {
    |c| == |d| && forall i | 0 <= i < |c| ::
      && c[i].id == d[i].id && c[i].version == d[i].version
      && c[i].signature == d[i].signature && c[i].prev == d[i].prev
  }

  lemma {:induction false} ShapeAnchor(h: Keyed, c: seq<Row>, d: seq<Row>)
    requires SameShape(c, d)
    ensures Anchor(h, c) == Anchor(h, d)
  {
    if c != [] {
      ShapeAnchor(h, c[..|c| - 1], d[..|d| - 1]);
    }
  }

  lemma {:induction false} ShapeLinked(c: seq<Row>, d: seq<Row>, from: string)
    requires SameShape(c, d) && Linked(c, from)
    ensures Linked(d, from) && Tip(d, from) == Tip(c, from)
  {
    if c != [] {
      ShapeLinked(c[..|c| - 1], d[..|d| - 1], from);
    }
  }

  lemma ShapeRows(c: seq<Row>, d: seq<Row>, tip: string)
    requires SameShape(c, d) && Table(c)
    requires forall r | r in c :: Chained(r) && r.prev != Some(tip)
    ensures Table(d) && forall r | r in d :: Chained(r) && r.prev != Some(tip)
  {
    forall r | r in d ensures Chained(r) && r.prev != Some(tip) {
      var i :| 0 <= i < |d| && d[i] == r;
      assert c[i] in c;
    }
  }

  lemma ShapePointers(c: seq<Row>, d: seq<Row>, base: seq<Row>)
    requires SameShape(c, d) && forall i, j :: 0 <= i < j < |c| ==> c[i].prev != c[j].prev
    requires forall r | r in base :: !Chained(r)
    ensures forall r, q | r in d && q in base + d && Chained(q) && q.prev == r.prev :: q == r
  {
    assert forall i, j :: 0 <= i < j < |d| ==> d[i].prev != d[j].prev;
    SamePointer(d, d, base + d);
  }

  // Behind rows of version 1, the shape of a chain is walked to its end.
  lemma ShapeWalkable(h: Keyed, base: seq<Row>, c: seq<Row>, d: seq<Row>, from: string)
    requires CollisionFree(h) && Anchors(h, from) && Chain(h, c, from) && Table(c) && SameShape(c, d)
    requires forall r | r in base :: r.version == 1
    ensures Walkable(base + d, d, from)
  {
    PointersDiffer(h, c, from);
    ShapeLinked(c, d, from);
    ShapeRows(c, d, Tip(c, from));
    ShapePointers(c, d, base);
  }

  // Only the signed fields of one row are changed, and the rows are still listed as
  // they were: that row and no other is reported.
  lemma ChangedInPlace(h: Keyed, base: seq<Row>, c: seq<Row>, k: nat, content: string, createdAt: int)
    requires CollisionFree(h) && Upgraded(h, base, c) && k < |base + c|
    requires content != (base + c)[k].content || createdAt != (base + c)[k].createdAt
    ensures var rows := (base + c)[k := (base + c)[k].(content := content, createdAt := createdAt)];
            forall i | 0 <= i < |rows| :: Verdict(h, rows, rows[i]) == if i == k then SignatureMismatch else Valid
  {
    var full := base + c;
    var rows := full[k := full[k].(content := content, createdAt := createdAt)];
    ChangedWalk(h, base, c, rows);
    forall i | 0 <= i < |rows|
      ensures Verdict(h, rows, rows[i]) == if i == k then SignatureMismatch else Valid
    {
      OneChanged(h, base, c, k, content, createdAt, i);
      WalkedVerdict(h, rows, |base|, i);
    }
  }

  // What a walk over the rows from n on finds.
  lemma WalkedVerdict(h: Keyed, rows: seq<Row>, n: nat, i: nat)
    requires n <= |rows| && i < |rows| && Trail(rows, Anchor(h, rows), {}) == rows[n..]
    requires if i < n then rows[i].version == 1 else Chained(rows[i])
    ensures Verdict(h, rows, rows[i]) == Signed(h, rows[i])
  {
    if i >= n { assert rows[n..][i - n] == rows[i]; }
  }

  lemma OneChanged(h: Keyed, base: seq<Row>, c: seq<Row>, k: nat, content: string, createdAt: int, i: nat)
    requires CollisionFree(h) && Upgraded(h, base, c) && k < |base + c| && i < |base + c|
    requires content != (base + c)[k].content || createdAt != (base + c)[k].createdAt
    ensures var rows := (base + c)[k := (base + c)[k].(content := content, createdAt := createdAt)];
            && (SignedRow(h, rows[i]) <==> i != k)
            && (if i < |base| then rows[i].version == 1 else Chained(rows[i]))
  {
    var row := (base + c)[i];
    if i < |base| { assert row == base[i] && row in base; } else { assert row == c[i - |base|] && row in c; }
  }

  lemma ShapeOfParts(base: seq<Row>, c: seq<Row>, rows: seq<Row>)
    requires SameShape(base + c, rows)
    ensures SameShape(base, rows[..|base|]) && SameShape(c, rows[|base|..])
    ensures rows[..|base|] + rows[|base|..] == rows
  {
    var full := base + c;
    forall i | 0 <= i < |c| ensures full[|base| + i] == c[i] && rows[|base|..][i] == rows[|base| + i] {
    }
    forall i | 0 <= i < |base| ensures full[i] == base[i] && rows[..|base|][i] == rows[i] {
    }
  }

  lemma ChangedWalk(h: Keyed, base: seq<Row>, c: seq<Row>, rows: seq<Row>)
    requires CollisionFree(h) && Upgraded(h, base, c) && SameShape(base + c, rows)
    ensures Trail(rows, Anchor(h, rows), {}) == rows[|base|..]
  {
    ShapeOfParts(base, c, rows);
    TableOfChain(base, c);
    AnchorOfParts(h, base, c);
    ShapeAnchor(h, base + c, rows);
    AnchorIsFresh(h, base);
    LegacyShape(base, rows[..|base|]);
    ShapeWalkable(h, rows[..|base|], c, rows[|base|..], Anchor(h, base));
    TrailIs(rows, rows[|base|..], Anchor(h, base));
  }

  lemma LegacyShape(c: seq<Row>, d: seq<Row>)
    requires SameShape(c, d) && forall r | r in c :: r.version == 1
    ensures forall r | r in d :: r.version == 1
  {
    forall r | r in d ensures r.version == 1 {
      var i :| 0 <= i < |d| && d[i] == r;
      assert c[i] in c;
    }
  }

  lemma ShapeTable(rows: seq<Row>, other: seq<Row>)
    requires SameShape(rows, other) && Table(rows)
    ensures Table(other)
  {
  }

  lemma ShapeOwnPointers(h: Keyed, base: seq<Row>, c: seq<Row>, rows: seq<Row>)
    requires CollisionFree(h) && Upgraded(h, base, c) && SameShape(base + c, rows)
    ensures OwnPointers(rows)
  {
    var front, d := rows[..|base|], rows[|base|..];
    ShapeOfParts(base, c, rows);
    AnchorIsFresh(h, base);
    PointersDiffer(h, c, Anchor(h, base));
    LegacyShape(base, front);
    ShapePointers(c, d, front);
    assert forall r | r in rows && Chained(r) :: r in d;
  }

  // The anchor is genesis or the signature of a version-1 row.
  lemma {:induction false} AnchorIsSomeones(h: Keyed, rows: seq<Row>)
    ensures Anchor(h, rows) == h.genesis
            || exists r :: r in rows && r.version == 1 && r.signature == Some(Anchor(h, rows))
  {
    if rows != [] {
      assert rows[|rows| - 1] in rows;
      AnchorIsSomeones(h, rows[..|rows| - 1]);
    }
  }

  // Changing what a row says does not make its signature one of the chain's.
  lemma ChangedAnchorIsFresh(h: Keyed, base: seq<Row>, c: seq<Row>, table: seq<Row>)
    requires CollisionFree(h) && Upgraded(h, base, c) && SameShape(base + c, table)
    ensures Anchors(h, Anchor(h, Load(table)))
  {
    var rows := Load(table);
    ShapeTable(base + c, table);
    LoadIs(table);
    AnchorIsSomeones(h, rows);
    if r :| r in rows && r.version == 1 && r.signature == Some(Anchor(h, rows)) {
      assert r in table;
      var i :| 0 <= i < |table| && table[i] == r;
      var was := (base + c)[i];
      assert was in base + c && was.version == 1 && was in base;
    }
  }

  // No row of a chain points at an anchor that is not its own.
  lemma NothingPointsAt(h: Keyed, c: seq<Row>, from: string, start: string)
    requires Chain(h, c, from) && Anchors(h, start) && start != from
    ensures forall r | r in c :: r.prev != Some(start)
  {
    forall r | r in c ensures r.prev != Some(start) {
      var i :| 0 <= i < |c| && c[i] == r;
      LinkedAt(c, from, i);
      if i > 0 { assert c[i - 1] in c; }
    }
  }

  function Changed(base: seq<Row>, c: seq<Row>, k: nat, content: string, createdAt: int): seq<Row>
    requires k < |base + c|
  {
    (base + c)[k := (base + c)[k].(content := content, createdAt := createdAt)]
  }

  ghost predicate ReportsOnly(h: Keyed, table: seq<Row>, id: nat) {
    forall r | r in table :: Reported(h, table, r) == if r.id == id then SignatureMismatch else Valid
  }

  lemma ShapeLegacy(base: seq<Row>, front: seq<Row>)
    requires Sorted(base) && SameShape(base, front) && forall r | r in base :: r.version == 1
    requires forall i | 0 <= i < |base| :: front[i].createdAt == base[i].createdAt
    ensures Sorted(front) && LatestLast(front)
  {
    LegacyShape(base, front);
  }

  lemma ShapeChained(c: seq<Row>, d: seq<Row>)
    requires SameShape(c, d) && forall r | r in c :: Chained(r)
    ensures forall r | r in d :: r.version != 1
  {
    forall r | r in d ensures r.version != 1 {
      var i :| 0 <= i < |d| && d[i] == r;
      assert c[i] in c;
    }
  }

  // As long as the version-1 rows keep their times the chain starts where it did.
  lemma SameTimesSameAnchor(h: Keyed, base: seq<Row>, c: seq<Row>, table: seq<Row>)
    requires Upgraded(h, base, c) && SameShape(base + c, table)
    requires forall i | 0 <= i < |base| :: table[i].createdAt == base[i].createdAt
    ensures Anchor(h, Load(table)) == Anchor(h, base)
  {
    var front, d := table[..|base|], table[|base|..];
    ShapeTable(base + c, table);
    ShapeOfParts(base, c, table);
    ShapeLegacy(base, front);
    ShapeChained(c, d);
    ShapeAnchor(h, base, front);
    LoadKeepsAnchor(h, front, d);
  }

  lemma SameAnchorReportsOnly(h: Keyed, base: seq<Row>, c: seq<Row>, k: nat, content: string, createdAt: int)
    requires CollisionFree(h) && Upgraded(h, base, c) && k < |base + c|
    requires content != (base + c)[k].content || createdAt != (base + c)[k].createdAt
    requires Anchor(h, Load(Changed(base, c, k, content, createdAt))) == Anchor(h, base)
    ensures ReportsOnly(h, Changed(base, c, k, content, createdAt), (base + c)[k].id)
  {
    var table := Changed(base, c, k, content, createdAt);
    LoadedAsListed(h, base, c, table);
    ChangedInPlace(h, base, c, k, content, createdAt);
    ByPlace(h, table, k);
  }

  // With the anchor it had, the changed table is judged as it was listed.
  lemma LoadedAsListed(h: Keyed, base: seq<Row>, c: seq<Row>, table: seq<Row>)
    requires CollisionFree(h) && Upgraded(h, base, c) && SameShape(base + c, table)
    requires Anchor(h, Load(table)) == Anchor(h, base)
    ensures Table(table) && forall r :: Reported(h, table, r) == Verdict(h, table, r)
  {
    ShapeTable(base + c, table);
    LoadIs(table);
    assert forall r | r in c :: r.version != 1;
    ShapeAnchor(h, base + c, table);
    AnchorOfParts(h, base, c);
    ShapeOwnPointers(h, base, c, table);
    SameAnchorSameVerdicts(h, table, Load(table));
  }

  lemma ByPlace(h: Keyed, table: seq<Row>, k: nat)
    requires Table(table) && k < |table|
    requires forall i | 0 <= i < |table| ::
               Reported(h, table, table[i]) == if i == k then SignatureMismatch else Valid
    ensures ReportsOnly(h, table, table[k].id)
  {
    forall r | r in table
      ensures Reported(h, table, r) == if r.id == table[k].id then SignatureMismatch else Valid
    {
      var i :| 0 <= i < |table| && table[i] == r;
      assert r.id == table[k].id <==> i == k;
    }
  }

  lemma OtherAnchorBreaksChain(h: Keyed, base: seq<Row>, c: seq<Row>, k: nat, content: string, createdAt: int)
    requires CollisionFree(h) && Upgraded(h, base, c) && k < |base|
    requires content != base[k].content || createdAt != base[k].createdAt
    requires Anchor(h, Load(Changed(base, c, k, content, createdAt))) != Anchor(h, base)
    ensures var table := Changed(base, c, k, content, createdAt);
            forall r | r in table ::
              Reported(h, table, r) == if r.id == base[k].id then SignatureMismatch
                                       else if r.version == 1 then Valid else ChainBreak
  {
    var table := Changed(base, c, k, content, createdAt);
    var rows := Load(table);
    var start := Anchor(h, rows);
    assert SameShape(base + c, table) && (base + c)[k] == base[k];
    ShapeTable(base + c, table);
    LoadIs(table);
    ChangedAnchorIsFresh(h, base, c, table);
    NothingPointsAt(h, c, Anchor(h, base), start);
    forall r | r in table ensures r.version == 1 || r in c {
      var i :| 0 <= i < |table| && table[i] == r;
      assert i >= |base| ==> r == c[i - |base|];
      assert i < |base| ==> (base + c)[i] == base[i] && base[i] in base;
    }
    ByPrevIs(rows, start);
    assert Trail(rows, start, {}) == [];
    forall r | r in table
      ensures Reported(h, table, r) == if r.id == base[k].id then SignatureMismatch
                                       else if r.version == 1 then Valid else ChainBreak
    {
      var i :| 0 <= i < |table| && table[i] == r;
      assert r.id == table[k].id <==> i == k;
      OneChanged(h, base, c, k, content, createdAt, i);
    }
  }

  // A changed row, of any version, in a table that is loaded by the changed time:
  // that row and no other is reported exactly when it is a row of the chain, or
  // there is no chain, or the latest version-1 row still has the signature the
  // chain starts at. Otherwise every row of the chain is reported with it.
  lemma ChangedRowReportedExactlyWhen(h: Keyed, base: seq<Row>, c: seq<Row>, k: nat, content: string, createdAt: int)
    requires CollisionFree(h) && Upgraded(h, base, c) && k < |base + c|
    requires content != (base + c)[k].content || createdAt != (base + c)[k].createdAt
    ensures var table, id := Changed(base, c, k, content, createdAt), (base + c)[k].id;
            && (ReportsOnly(h, table, id) <==>
                  k >= |base| || c == [] || Anchor(h, Load(table)) == Anchor(h, base))
            && (!ReportsOnly(h, table, id) ==>
                  forall r | r in table ::
                    Reported(h, table, r) == if r.id == id then SignatureMismatch
                                             else if r.version == 1 then Valid else ChainBreak)
  {
    var table := Changed(base, c, k, content, createdAt);
    if k >= |base| {
      forall i | 0 <= i < |base| ensures table[i].createdAt == base[i].createdAt {
        assert (base + c)[i] == base[i];
      }
      SameTimesSameAnchor(h, base, c, table);
    }
    if Anchor(h, Load(table)) == Anchor(h, base) {
      SameAnchorReportsOnly(h, base, c, k, content, createdAt);
    } else {
      assert (base + c)[k] == base[k];
      OtherAnchorBreaksChain(h, base, c, k, content, createdAt);
      ChainRowsOf(base, c, k, content, createdAt);
    }
  }

  // With the version-1 row changed: which rows the table has.
  lemma ChainRowsOf(base: seq<Row>, c: seq<Row>, k: nat, content: string, createdAt: int)
    requires k < |base| && Table(base + c)
    requires (forall r | r in base :: r.version == 1) && forall r | r in c :: r.version != 1
    ensures var table := Changed(base, c, k, content, createdAt);
            && (c == [] ==> forall r | r in table :: r.version == 1)
            && (c != [] ==> c[0] in table && c[0].id != base[k].id)
  {
    var full, table := base + c, Changed(base, c, k, content, createdAt);
    if c == [] {
      forall r | r in table ensures r.version == 1 {
        var i :| 0 <= i < |table| && table[i] == r;
        assert full[i] == base[i] && base[i] in base;
      }
    } else {
      assert table[|base|] == full[|base|] == c[0] && full[k] == base[k];
    }
  }

  // What a row says, its time apart, can be changed without any effect on others.
  lemma ChangedContentReported(h: Keyed, base: seq<Row>, c: seq<Row>, k: nat, content: string)
    requires CollisionFree(h) && Upgraded(h, base, c) && k < |base + c| && content != (base + c)[k].content
    ensures ReportsOnly(h, Changed(base, c, k, content, (base + c)[k].createdAt), (base + c)[k].id)
  {
    var full := base + c;
    var table := Changed(base, c, k, content, full[k].createdAt);
    forall i | 0 <= i < |base| ensures table[i].createdAt == base[i].createdAt {
      assert full[i] == base[i];
    }
    SameTimesSameAnchor(h, base, c, table);
    SameAnchorReportsOnly(h, base, c, k, content, full[k].createdAt);
  }

  // Two version-1 rows and a row chained to the second. The first one's time is
  // set behind the second's: now it is the anchor, and the chained row is reported.
  lemma ChangedTimeBreaksChain(h: Keyed, a: string, b: string, x: string)
    requires CollisionFree(h)
    ensures var first := Row(1, 1, a, 1, Some(h.legacy(a, 1)), None);
            var second := Row(2, 1, b, 2, Some(h.legacy(b, 2)), None);
            var prev := h.legacy(b, 2);
            var third := Row(3, 3, x, 4, Some(h.sign(3, prev, x, 4)), Some(prev));
            var table := Changed([first, second], [third], 0, a, 3);
            && Upgraded(h, [first, second], [third]) && Passes(h, [first, second, third])
            && table == [first.(createdAt := 3), second, third]
            && Load(table) == [second, first.(createdAt := 3), third]
            && Reported(h, table, third) == ChainBreak
  {
    var first := Row(1, 1, a, 1, Some(h.legacy(a, 1)), None);
    var second := Row(2, 1, b, 2, Some(h.legacy(b, 2)), None);
    var prev := h.legacy(b, 2);
    var third := Row(3, 3, x, 4, Some(h.sign(3, prev, x, 4)), Some(prev));
    ThreeUpgraded(h, first, second, third);
    LoadMoved(h, first.(createdAt := 3), second, third);
    var table := Changed([first, second], [third], 0, a, 3);
    assert [first, second] + [third] == [first, second, third];
    assert table == [first.(createdAt := 3), second, third] && Anchor(h, [first, second]) == prev;
    OtherAnchorBreaksChain(h, [first, second], [third], 0, a, 3);
    assert third in table;
  }

  lemma ThreeUpgraded(h: Keyed, first: Row, second: Row, third: Row)
    requires CollisionFree(h) && first.version == second.version == 1 && Chained(third)
    requires SignedRow(h, first) && SignedRow(h, second) && SignedRow(h, third) && third.prev == second.signature
    requires first.id < second.id < third.id && first.createdAt <= second.createdAt
    ensures Upgraded(h, [first, second], [third]) && Passes(h, [first, second, third])
  {
    var base, c := [first, second], [third];
    assert base + c == [first, second, third];
    assert Anchor(h, base) == second.signature.value && c[..0] == [] && Linked([], Anchor(h, base));
    AnchorOfParts(h, base, c);
    ChainIsValid(h, base + c, c);
    LoadingIsHarmless(h, base, c);
  }

  lemma LoadMoved(h: Keyed, moved: Row, second: Row, third: Row)
    requires After(moved, second) && After(third, moved) && After(third, second)
    requires moved.version == 1 && moved.signature.Some? && third.version != 1
    ensures Load([moved, second, third]) == [second, moved, third]
    ensures Anchor(h, [second, moved, third]) == moved.signature.value
  {
    var table, rows := [moved, second, third], [second, moved, third];
    assert table[1..] == [second, third] && [second, third][1..] == [third] && [third][1..] == [];
    assert Load([third]) == [third] && Load([second, third]) == [second, third];
    assert Insert(moved, [third]) == [moved, third] && Insert(moved, [second, third]) == [second, moved, third];
    assert rows[..2] == [second, moved];
  }

  lemma RemovedInPlace(h: Keyed, base: seq<Row>, c: seq<Row>, k: nat)
    requires CollisionFree(h) && Upgraded(h, base, c) && k < |c|
    ensures var rows := base + (c[..k] + c[k + 1..]);
            && (forall r | r in base :: Verdict(h, rows, r) == Valid)
            && (forall i | 0 <= i < k :: Verdict(h, rows, c[i]) == Valid)
            && (forall i | k < i < |c| :: Verdict(h, rows, c[i]) == ChainBreak)
  {
    RemovedWalk(h, base, c, k);
    TableOfChain(base, c);
    forall i | 0 <= i < |c| ensures c[i] in c[..k] <==> i < k {
      assert i < k ==> c[..k][i] == c[i];
    }
    assert forall i | 0 <= i < |c| :: c[i] in c;
  }

  lemma TableOfChain(base: seq<Row>, c: seq<Row>)
    requires Table(base + c)
    ensures Table(c)
  {
    assert forall j | 0 <= j < |c| :: (base + c)[|base| + j] == c[j];
  }

  lemma RemovedWalk(h: Keyed, base: seq<Row>, c: seq<Row>, k: nat)
    requires CollisionFree(h) && Upgraded(h, base, c) && k < |c|
    ensures var rows := base + (c[..k] + c[k + 1..]);
            Trail(rows, Anchor(h, rows), {}) == c[..k]
  {
    var left, from := c[..k] + c[k + 1..], Anchor(h, base);
    AnchorIsFresh(h, base);
    RowsWithout(h, c, from, k);
    AnchorOfParts(h, base, left);
    RemovedWalkable(h, base, c, k);
    TrailIs(base + left, c[..k], from);
  }

  lemma RemovedWalkable(h: Keyed, base: seq<Row>, c: seq<Row>, k: nat)
    requires CollisionFree(h) && Upgraded(h, base, c) && k < |c|
    ensures Walkable(base + (c[..k] + c[k + 1..]), c[..k], Anchor(h, base))
  {
    var rows, front, from := base + (c[..k] + c[k + 1..]), c[..k], Anchor(h, base);
    AnchorIsFresh(h, base);
    WhatIsLeft(h, base, c, from, k);
    LinkedPrefix(c, from, k);
    LinkedAt(c, from, k);
    TableOfChain(base, c);
    PointersDiffer(h, c, from);
    SamePointer(c, front, rows);
  }

  lemma WhatIsLeft(h: Keyed, base: seq<Row>, c: seq<Row>, from: string, k: nat)
    requires CollisionFree(h) && Anchors(h, from) && Chain(h, c, from) && k < |c|
    requires forall r | r in base :: r.version == 1
    ensures forall r | r in c[..k] :: r in c && Chained(r) && r in base + (c[..k] + c[k + 1..])
    ensures forall q | q in base + (c[..k] + c[k + 1..]) && Chained(q) :: q in c && q.prev != c[k].prev
  {
    RowsWithout(h, c, from, k);
  }

  lemma RowsWithout(h: Keyed, c: seq<Row>, from: string, k: nat)
    requires CollisionFree(h) && Anchors(h, from) && Chain(h, c, from) && k < |c|
    ensures forall r | r in c[..k] + c[k + 1..] :: r in c && r.prev != c[k].prev
  {
    PointersDiffer(h, c, from);
    var rows := c[..k] + c[k + 1..];
    forall r | r in rows ensures r in c && r.prev != c[k].prev {
      var i :| 0 <= i < |rows| && rows[i] == r;
      var j := if i < k then i else i + 1;
      assert r == c[j];
    }
  }

  lemma {:induction false} LinkedPrefix(c: seq<Row>, from: string, k: nat)
    requires Linked(c, from) && k <= |c|
    ensures Linked(c[..k], from)
  {
    if k < |c| {
      LinkedPrefix(c[..|c| - 1], from, k);
      assert c[..|c| - 1][..k] == c[..k];
    } else {
      assert c[..k] == c;
    }
  }

  // A removed row of the chain: the rows before it stay valid and all rows after
  // it are reported. Removing the last row goes unnoticed.
  lemma RemovedRowReported(h: Keyed, base: seq<Row>, c: seq<Row>, k: nat)
    requires CollisionFree(h) && Upgraded(h, base, c) && k < |c|
    ensures var table := base + (c[..k] + c[k + 1..]);
            && (forall r | r in base :: Reported(h, table, r) == Valid)
            && (forall i | 0 <= i < k :: Reported(h, table, c[i]) == Valid)
            && (forall i | k < i < |c| :: Reported(h, table, c[i]) == ChainBreak)
  {
    var left := c[..k] + c[k + 1..];
    AnchorIsFresh(h, base);
    RowsWithout(h, c, Anchor(h, base), k);
    PointersDiffer(h, c, Anchor(h, base));
    assert OwnPointers(base + left);
    TableWithout(base, c, k);
    LoadingIsHarmless(h, base, left);
    RemovedInPlace(h, base, c, k);
  }

  lemma TableWithout(base: seq<Row>, c: seq<Row>, k: nat)
    requires Table(base + c) && k < |c|
    ensures Table(base + (c[..k] + c[k + 1..]))
  {
    var full, rows, n := base + c, base + (c[..k] + c[k + 1..]), |base| + k;
    forall i, j | 0 <= i < j < |rows| ensures rows[i].id != rows[j].id {
      assert rows[i] == full[if i < n then i else i + 1] && rows[j] == full[if j < n then j else j + 1];
    }
  }

  // A removed version-1 row: nothing is reported exactly when there is no chain
  // behind these rows or it still finds its anchor. Only the last of them is an
  // anchor, so removing any other goes unnoticed.
  lemma RemovedLegacyExactlyWhen(h: Keyed, base: seq<Row>, c: seq<Row>, k: nat)
    requires CollisionFree(h) && Upgraded(h, base, c) && k < |base|
    ensures var left := base[..k] + base[k + 1..];
            && (Passes(h, left + c) <==> c == [] || Anchor(h, left) == Anchor(h, base))
            && (k < |base| - 1 ==> Passes(h, left + c))
  {
    var left := base[..k] + base[k + 1..];
    LegacyLeft(h, base, c, k);
    LoadingIsHarmless(h, left, c);
    if c == [] || Anchor(h, left) == Anchor(h, base) {
      assert Chain(h, c, Anchor(h, left));
      ChainIsValid(h, left + c, c);
    } else if AllValid(h, left + c) {
      AllValidExactlyWhen(h, left + c);
      var d :| Chain(h, d, Anchor(h, left)) && ChainRows(left + c, d);
      OneAnchor(h, c, Anchor(h, base), d, Anchor(h, left));
    }
  }

  lemma LegacyLeft(h: Keyed, base: seq<Row>, c: seq<Row>, k: nat)
    requires CollisionFree(h) && Upgraded(h, base, c) && k < |base|
    ensures var left := base[..k] + base[k + 1..];
            && Table(left + c) && ChainRows(left + c, c) && LatestLast(left)
            && (forall r | r in left :: SignedRow(h, r))
            && Anchors(h, Anchor(h, left)) && Anchor(h, left + c) == Anchor(h, left)
            && (k < |base| - 1 ==> Anchor(h, left) == Anchor(h, base))
  {
    var left := base[..k] + base[k + 1..];
    LeftIsBase(base, k);
    AnchorOfParts(h, left, c);
    AnchorIsFresh(h, left);
    LeftIsTable(base, c, k);
    LeftIsSorted(base, k);
  }

  lemma LeftIsBase(base: seq<Row>, k: nat)
    requires k < |base|
    ensures var left := base[..k] + base[k + 1..];
            && (forall r | r in left :: r in base)
            && (k < |base| - 1 ==> left != [] && left[|left| - 1] == base[|base| - 1])
  {
  }

  lemma LeftIsSorted(base: seq<Row>, k: nat)
    requires Sorted(base) && k < |base|
    ensures Sorted(base[..k] + base[k + 1..])
    ensures (forall r | r in base :: r.version == 1) ==> LatestLast(base[..k] + base[k + 1..])
  {
    LeftIsBase(base, k);
  }

  lemma LeftIsTable(base: seq<Row>, c: seq<Row>, k: nat)
    requires Table(base + c) && k < |base|
    requires (forall r | r in base :: r.version == 1) && forall r | r in c :: r.version != 1
    ensures Table(base[..k] + base[k + 1..] + c) && ChainRows(base[..k] + base[k + 1..] + c, c)
  {
    var full, rows := base + c, base[..k] + base[k + 1..] + c;
    forall i, j | 0 <= i < j < |rows| ensures rows[i].id != rows[j].id {
      assert rows[i] == full[if i < k then i else i + 1] && rows[j] == full[if j < k then j else j + 1];
    }
    forall i, j | 0 <= i < j < |c| ensures c[i].id != c[j].id {
      assert full[|base| + i] == c[i] && full[|base| + j] == c[j];
    }
  }

  // A row of both starts a chain in one of them only when they start alike.
  lemma OneAnchor(h: Keyed, c: seq<Row>, from: string, d: seq<Row>, start: string)
    requires Chain(h, c, from) && Chain(h, d, start) && Anchors(h, start)
    requires c != [] && forall r :: r in c <==> r in d
    ensures from == start
  {
    assert c[0] in c;
    LinkedAt(d, start, 0);
    assert d[0] in c;
    var i :| 0 <= i < |c| && c[i] == d[0];
    LinkedAt(c, from, i);
    if i > 0 { assert c[i - 1] in c; }
  }
}
