// How one audit partition grows: any number of service instances, each carrying
// the last signature it wrote in memory, writing rows of their own or inside a
// caller's transaction, with or without the partition's advisory lock.
module AuditWriters {
  import opened Wrappers
  import opened AuditChain

  // A row inserted in a transaction that has not ended.
  datatype Pending = Pending(instance: nat, enlisted: bool, row: Row)

  // base: the version-1 rows the partition held before; rows: those committed
  // since, in the order of their commits. memory: the tip an instance carries;
  // absent when it must read the database.
  datatype State = State(base: seq<Row>, rows: seq<Row>, memory: map<nat, string>, pending: map<nat, Pending>)

  function Start(base: seq<Row>): State {
    State(base, [], map[], map[])
  }

  // Write: one call of log up to its INSERT. Restart: a new process, nothing in
  // memory.
  datatype Event =
    | Write(instance: nat, id: nat, content: string, createdAt: int, enlisted: bool)
    | Commit(id: nat)
    | RollBack(id: nat)
    | Restart(instance: nat)

  // ORDER BY created_at DESC, id DESC LIMIT 1
  function Latest(rows: seq<Row>): (latest: Row)
    requires rows != []
    ensures latest in rows && forall r | r in rows :: r == latest || !After(r, latest)
  {
    var last := rows[|rows| - 1];
    if |rows| == 1 then last
    else
      var before := Latest(rows[..|rows| - 1]);
      assert forall r | r in rows :: r == last || r in rows[..|rows| - 1];
      if After(before, last) then before else last
  }

  function DatabaseTip(h: Keyed, rows: seq<Row>): string {
    if rows == [] || Latest(rows).signature.None? then h.genesis else Latest(rows).signature.value
  }

  // The prev_signature a write takes.
  function PrevFor(h: Keyed, s: State, instance: nat, enlisted: bool): string {
    if !enlisted && instance in s.memory then s.memory[instance] else DatabaseTip(h, s.base + s.rows)
  }

  function NewRow(h: Keyed, prev: string, id: nat, content: string, createdAt: int): Row {
    Row(id, 3, content, createdAt, Some(h.sign(3, prev, content, createdAt)), Some(prev))
  }

  // An instance's calls queue up behind its own write until that has ended; an
  // enlisted one leaves the queue with its INSERT.
  predicate Busy(s: State, instance: nat) {
    exists id :: id in s.pending && s.pending[id].instance == instance && !s.pending[id].enlisted
  }

  function Apply(h: Keyed, s: State, e: Event): State {
    match e
    case Write(instance, id, content, createdAt, enlisted) =>
      if Busy(s, instance) then s
      else
        var row := NewRow(h, PrevFor(h, s, instance, enlisted), id, content, createdAt);
        s.(pending := s.pending[id := Pending(instance, enlisted, row)], memory := s.memory - {instance})
    case Commit(id) =>
      if id !in s.pending then s
      else
        var p := s.pending[id];
        s.(rows := s.rows + [p.row],
           memory := if p.enlisted then s.memory else s.memory[p.instance := Sig(p.row)],
           pending := s.pending - {id})
    case RollBack(id) => s.(pending := s.pending - {id})
    case Restart(instance) => if Busy(s, instance) then s else s.(memory := s.memory - {instance})
  }

  class Partition {
    const base: seq<Row>
    var rows: seq<Row>
    var memory: map<nat, string>
    var pending: map<nat, Pending>

    ghost function Abs(): State
      reads this
    {
      State(base, rows, memory, pending)
    }

    constructor (base: seq<Row>)
      ensures Abs() == Start(base)
    {
      this.base := base;
      rows, memory, pending := [], map[], map[];
    }

    // writeRow: the predecessor is the carried tip, or the latest row when there
    // is none or the call is enlisted.
    method WriteRow(h: Keyed, instance: nat, id: nat, content: string, createdAt: int, enlisted: bool)
      requires !Busy(Abs(), instance)
      modifies this
      ensures Abs() == Apply(h, old(Abs()), Write(instance, id, content, createdAt, enlisted))
    {
      var prev;
      if instance in memory && !enlisted {
        prev := memory[instance];
      } else if base + rows == [] {
        prev := h.genesis;
      } else {
        var latest := Latest(base + rows);
        prev := if latest.signature.Some? then latest.signature.value else h.genesis;
      }
      var signature := h.sign(3, prev, content, createdAt);
      var row := Row(id, 3, content, createdAt, Some(signature), Some(prev));
      pending := pending[id := Pending(instance, enlisted, row)];
      memory := memory - {instance};
    }

    // The end of the row's transaction. Only a call that owns its transaction
    // carries its signature on, and only when it commits.
    method End(h: Keyed, id: nat, commits: bool)
      requires id in pending
      modifies this
      ensures Abs() == Apply(h, old(Abs()), if commits then Commit(id) else RollBack(id))
    {
      var p := pending[id];
      pending := pending - {id};
      if commits {
        rows := rows + [p.row];
        if !p.enlisted { memory := memory[p.instance := Sig(p.row)]; }
      }
    }

    // One call of log that owns its transaction and finds the lock free.
    method Log(h: Keyed, instance: nat, id: nat, content: string, createdAt: int, commits: bool)
      requires pending == map[]
      modifies this
      ensures Abs() == Run(h, old(Abs()), [Write(instance, id, content, createdAt, false),
                                           if commits then Commit(id) else RollBack(id)])
    {
      ghost var s := Abs();
      WriteRow(h, instance, id, content, createdAt, false);
      End(h, id, commits);
      RunTwo(h, s, Write(instance, id, content, createdAt, false), if commits then Commit(id) else RollBack(id));
    }
  }

  lemma RunTwo(h: Keyed, s: State, a: Event, b: Event)
    ensures Run(h, s, [a, b]) == Apply(h, Apply(h, s, a), b)
  {
    assert [a, b][1..] == [b] && [b][1..] == [];
    assert Run(h, Apply(h, s, a), [b]) == Run(h, Apply(h, Apply(h, s, a), b), []);
  }

  function Run(h: Keyed, s: State, es: seq<Event>): State
    decreases |es|
  {
    if es == [] then s else Run(h, Apply(h, s, es[0]), es[1..])
  }

  function Spent(used: set<nat>, e: Event): set<nat> {
    if e.Write? then used + {e.id} else used
  }

  // Every write has an id of its own.
  ghost predicate NewIds(used: set<nat>, es: seq<Event>)
    decreases |es|
  {
    es == [] || ((es[0].Write? ==> es[0].id !in used) && NewIds(Spent(used, es[0]), es[1..]))
  }

  predicate Commits(s: State, e: Event) {
    e.Commit? && e.id in s.pending
  }

  // The row written last, which the next one should point at.
  function TipOf(h: Keyed, s: State): string {
    Tip(s.rows, Anchor(h, s.base))
  }

  // A row that is committed points at the row committed last.
  predicate SeesTip(h: Keyed, s: State, e: Event) {
    Commits(s, e) ==> s.pending[e.id].row.prev == Some(TipOf(h, s))
  }

  predicate AllSeeTip(h: Keyed, s: State, es: seq<Event>)
    decreases |es|
  {
    es == [] || (SeesTip(h, s, es[0]) && AllSeeTip(h, Apply(h, s, es[0]), es[1..]))
  }

  // The row with the greatest time, and among those the greatest id.
  ghost predicate IsLatest(rows: seq<Row>, latest: Row) {
    latest in rows && forall r | r in rows ::
      r == latest || r.createdAt < latest.createdAt || (r.createdAt == latest.createdAt && r.id < latest.id)
  }

  lemma LatestIs(rows: seq<Row>, latest: Row)
    requires IsLatest(rows, latest)
    ensures rows != [] && Latest(rows) == latest
  {
  }

  // One call under the lock, in full. Its row is of version 3, signed over the
  // signature the instance carries, or else over that of the latest row. Committed
  // it is the last row, and a call that owns its transaction carries the new
  // signature on; rolled back it leaves no row, and either way the old signature is
  // carried no longer.
  lemma CallIs(h: Keyed, s: State, e: Event, latest: Option<Row>)
    requires e.Write? && s.pending == map[]
    requires if latest.Some? then IsLatest(s.base + s.rows, latest.value) else s.base + s.rows == []
    ensures var prev := if !e.enlisted && e.instance in s.memory then s.memory[e.instance]
                        else if latest.Some? && latest.value.signature.Some? then latest.value.signature.value
                        else h.genesis;
            var signature := h.sign(3, prev, e.content, e.createdAt);
            var row := Row(e.id, 3, e.content, e.createdAt, Some(signature), Some(prev));
            var written := Apply(h, s, e);
            && written == s.(memory := s.memory - {e.instance},
                             pending := map[e.id := Pending(e.instance, e.enlisted, row)])
            && Apply(h, written, Commit(e.id))
               == s.(rows := s.rows + [row],
                     memory := if e.enlisted then s.memory - {e.instance} else s.memory[e.instance := signature])
            && Apply(h, written, RollBack(e.id)) == s.(memory := s.memory - {e.instance})
            && (!e.enlisted ==> Apply(h, written, Restart(e.instance)) == written)
            && Apply(h, s, Restart(e.instance)) == s.(memory := s.memory - {e.instance})
  {
    if latest.Some? { LatestIs(s.base + s.rows, latest.value); }
    assert !Busy(s, e.instance);
    var row := NewRow(h, PrevFor(h, s, e.instance, e.enlisted), e.id, e.content, e.createdAt);
    var written := Apply(h, s, e);
    assert written.pending == map[e.id := Pending(e.instance, e.enlisted, row)];
    assert written.pending - {e.id} == map[];
    assert (s.memory - {e.instance})[e.instance := Sig(row)] == s.memory[e.instance := Sig(row)];
    assert !e.enlisted ==> Busy(written, e.instance);
  }

  // How a row's transaction ends, whatever else has happened since it was written.
  lemma EndsAre(h: Keyed, s: State, id: nat)
    requires id in s.pending
    ensures var t, u, p := Apply(h, s, Commit(id)), Apply(h, s, RollBack(id)), s.pending[id];
            && t.base == u.base == s.base && t.rows == s.rows + [p.row] && u.rows == s.rows
            && (forall i :: i in t.pending <==> i in s.pending && i != id) && t.pending == u.pending
            && (forall q :: q in t.memory <==> q in s.memory || (q == p.instance && !p.enlisted))
            && (forall q | q in t.memory ::
                  t.memory[q] == if q == p.instance && !p.enlisted then Sig(p.row) else s.memory[q])
            && u.memory == s.memory
  {
  }

  // Until an instance's own write has ended no other call of it begins; enlisted
  // ones hold up nobody.
  lemma CallsQueueUp(h: Keyed, s: State, e: Event)
    requires e.Write?
    ensures var t := Apply(h, s, e);
            if exists id :: id in s.pending && s.pending[id].instance == e.instance && !s.pending[id].enlisted
            then t == s
            else
              && t.rows == s.rows && t.pending.Keys == s.pending.Keys + {e.id}
              && t.pending[e.id].instance == e.instance && t.pending[e.id].enlisted == e.enlisted
  {
  }

  // ---- invariants ----------------------------------------------------------

  // A pointer taken from memory or from the database names the anchor or a
  // committed row.
  ghost predicate Known(h: Keyed, s: State, prev: string) {
    prev == Anchor(h, s.base) || exists r :: r in s.rows && Sig(r) == prev
  }

  // The version-1 rows are signed, and the last of them is the latest.
  ghost predicate Legacy(h: Keyed, base: seq<Row>) {
    && Table(base)
    && (forall r | r in base :: r.version == 1 && SignedRow(h, r))
    && (base != [] ==> Latest(base) == base[|base| - 1])
  }

  ghost predicate RowOk(h: Keyed, s: State, r: Row) {
    r.version == 3 && Chained(r) && SignedRow(h, r) && Known(h, s, r.prev.value)
  }

  ghost predicate Inv(h: Keyed, s: State) {
    && Legacy(h, s.base) && Table(s.base + s.rows)
    && (forall r | r in s.rows :: RowOk(h, s, r))
    && (forall id | id in s.pending ::
          id == s.pending[id].row.id && id !in IdsOf(s.base + s.rows) && RowOk(h, s, s.pending[id].row))
    && (forall p | p in s.memory :: Known(h, s, s.memory[p]))
  }

  function Used(s: State): set<nat> {
    IdsOf(s.base + s.rows) + s.pending.Keys
  }

  lemma AnchorOfLegacy(h: Keyed, base: seq<Row>)
    requires Legacy(h, base)
    ensures Anchor(h, base) == if base == [] then h.genesis else Sig(base[|base| - 1])
  {
    if base != [] { assert base[|base| - 1] in base; }
  }

  // What the database reports as the tip is the anchor or a committed row.
  lemma DatabaseTipKnown(h: Keyed, s: State)
    requires Inv(h, s)
    ensures Known(h, s, DatabaseTip(h, s.base + s.rows))
  {
    var all := s.base + s.rows;
    AnchorOfLegacy(h, s.base);
    if all != [] {
      var latest := Latest(all);
      if latest in s.rows {
        assert RowOk(h, s, latest) && Sig(latest) == DatabaseTip(h, all);
      } else {
        var last := s.base[|s.base| - 1];
        assert last in all && latest in s.base;
        assert latest.createdAt == last.createdAt && latest.id == last.id;
        SameId(s.base, latest, last);
      }
    }
  }

  lemma WriteInv(h: Keyed, s: State, e: Event)
    requires Inv(h, s) && e.Write? && e.id !in Used(s)
    ensures Inv(h, Apply(h, s, e))
  {
    if !Busy(s, e.instance) {
      var prev := PrevFor(h, s, e.instance, e.enlisted);
      DatabaseTipKnown(h, s);
      var row := NewRow(h, prev, e.id, e.content, e.createdAt);
      assert RowOk(h, s, row);
      PendingInv(h, s, Pending(e.instance, e.enlisted, row));
    }
  }

  lemma PendingInv(h: Keyed, s: State, p: Pending)
    requires Inv(h, s) && RowOk(h, s, p.row) && p.row.id !in IdsOf(s.base + s.rows)
    ensures Inv(h, s.(pending := s.pending[p.row.id := p], memory := s.memory - {p.instance}))
  {
    var t := s.(pending := s.pending[p.row.id := p], memory := s.memory - {p.instance});
    forall r | RowOk(h, s, r) ensures RowOk(h, t, r) {
      assert Known(h, t, r.prev.value) <==> Known(h, s, r.prev.value);
    }
  }

  lemma KnownGrows(h: Keyed, s: State, t: State, row: Row, prev: string)
    requires t.base == s.base && t.rows == s.rows + [row]
    ensures Known(h, s, prev) ==> Known(h, t, prev)
    ensures Known(h, t, Sig(row))
  {
    assert row in t.rows;
    if r :| r in s.rows && Sig(r) == prev { assert r in t.rows; }
  }

  lemma CommitInv(h: Keyed, s: State, id: nat)
    requires Inv(h, s) && id in s.pending
    ensures Inv(h, Apply(h, s, Commit(id)))
  {
    var t, row := Apply(h, s, Commit(id)), s.pending[id].row;
    assert t.base + t.rows == (s.base + s.rows) + [row];
    forall prev | Known(h, s, prev) ensures Known(h, t, prev) {
      KnownGrows(h, s, t, row, prev);
    }
    KnownGrows(h, s, t, row, "");
    forall r | r in t.rows ensures RowOk(h, t, r) {
      assert r == row || r in s.rows;
      assert RowOk(h, s, r);
    }
  }

  lemma ApplyInv(h: Keyed, s: State, e: Event)
    requires Inv(h, s) && (e.Write? ==> e.id !in Used(s))
    ensures Inv(h, Apply(h, s, e))
    ensures Used(Apply(h, s, e)) <= Spent(Used(s), e)
  {
    match e
    case Write(_, _, _, _, _) => WriteInv(h, s, e);
    case Commit(id) =>
      if id in s.pending {
        CommitInv(h, s, id);
        assert s.base + (s.rows + [s.pending[id].row]) == (s.base + s.rows) + [s.pending[id].row];
      }
    case RollBack(_) =>
    case Restart(_) =>
  }

  lemma StartInv(h: Keyed, base: seq<Row>)
    requires Legacy(h, base)
    ensures Inv(h, Start(base)) && Used(Start(base)) == IdsOf(base) && Chain(h, [], Anchor(h, base))
  {
    assert base + [] == base;
  }

  lemma {:induction false} FewerUsed(used: set<nat>, more: set<nat>, es: seq<Event>)
    requires NewIds(more, es) && used <= more
    ensures NewIds(used, es)
    decreases |es|
  {
    if es != [] {
      FewerUsed(Spent(used, es[0]), Spent(more, es[0]), es[1..]);
    }
  }

  lemma StepInv(h: Keyed, s: State, es: seq<Event>)
    requires Inv(h, s) && es != [] && NewIds(Used(s), es)
    ensures Inv(h, Apply(h, s, es[0])) && NewIds(Used(Apply(h, s, es[0])), es[1..])
  {
    ApplyInv(h, s, es[0]);
    FewerUsed(Used(Apply(h, s, es[0])), Spent(Used(s), es[0]), es[1..]);
  }

  lemma {:induction false} RunInv(h: Keyed, s: State, es: seq<Event>)
    requires Inv(h, s) && NewIds(Used(s), es)
    ensures Inv(h, Run(h, s, es)) && s.rows <= Run(h, s, es).rows && Run(h, s, es).base == s.base
    decreases |es|
  {
    if es != [] {
      StepInv(h, s, es);
      ApplyGrows(h, s, es[0]);
      RunInv(h, Apply(h, s, es[0]), es[1..]);
    }
  }

  lemma ApplyGrows(h: Keyed, s: State, e: Event)
    ensures s.rows <= Apply(h, s, e).rows && Apply(h, s, e).base == s.base
  {
  }

  // ---- when verify passes --------------------------------------------------

  lemma SnocChain(h: Keyed, c: seq<Row>, row: Row, from: string)
    requires Chain(h, c, from) && Chained(row) && SignedRow(h, row) && row.prev == Some(Tip(c, from))
    ensures Chain(h, c + [row], from)
  {
  }

  lemma SeesTipChain(h: Keyed, s: State, e: Event)
    requires Inv(h, s) && Chain(h, s.rows, Anchor(h, s.base)) && SeesTip(h, s, e)
    ensures Chain(h, Apply(h, s, e).rows, Anchor(h, s.base))
  {
    if Commits(s, e) {
      assert RowOk(h, s, s.pending[e.id].row);
      SnocChain(h, s.rows, s.pending[e.id].row, Anchor(h, s.base));
    }
  }

  lemma {:induction false} FreshTipsChain(h: Keyed, s: State, es: seq<Event>)
    requires Inv(h, s) && NewIds(Used(s), es) && Chain(h, s.rows, Anchor(h, s.base)) && AllSeeTip(h, s, es)
    ensures Chain(h, Run(h, s, es).rows, Anchor(h, s.base))
    decreases |es|
  {
    if es != [] {
      StepInv(h, s, es);
      ApplyGrows(h, s, es[0]);
      SeesTipChain(h, s, es[0]);
      FreshTipsChain(h, Apply(h, s, es[0]), es[1..]);
    }
  }

  // A known pointer that is not the tip of a chain is some row's already.
  lemma StalePointerTaken(h: Keyed, s: State, prev: string) returns (r: Row)
    requires Known(h, s, prev) && Chain(h, s.rows, Anchor(h, s.base)) && prev != TipOf(h, s)
    ensures r in s.rows && r.prev == Some(prev)
  {
    var from := Anchor(h, s.base);
    if prev == from {
      LinkedAt(s.rows, from, 0);
      r := s.rows[0];
    } else {
      var q :| q in s.rows && Sig(q) == prev;
      var i :| 0 <= i < |s.rows| && s.rows[i] == q;
      LinkedAt(s.rows, from, i + 1);
      r := s.rows[i + 1];
    }
  }

  ghost predicate SharedPointer(rows: seq<Row>) {
    exists r, q :: r in rows && q in rows && r != q && r.prev == q.prev
  }

  lemma MissedTip(h: Keyed, s: State, e: Event)
    requires Inv(h, s) && Chain(h, s.rows, Anchor(h, s.base)) && !SeesTip(h, s, e)
    ensures SharedPointer(Apply(h, s, e).rows)
  {
    var q := s.pending[e.id].row;
    assert RowOk(h, s, q);
    var r := StalePointerTaken(h, s, q.prev.value);
    var rows := Apply(h, s, e).rows;
    assert r in rows && q in rows && r in s.base + s.rows && r.id in IdsOf(s.base + s.rows);
  }

  lemma FirstMissed(h: Keyed, s: State, es: seq<Event>)
    requires !AllSeeTip(h, s, es)
    ensures es != [] && (!SeesTip(h, s, es[0]) || !AllSeeTip(h, Apply(h, s, es[0]), es[1..]))
  {
  }

  lemma {:induction false} MissedTipStays(h: Keyed, s: State, es: seq<Event>)
    requires Inv(h, s) && NewIds(Used(s), es) && Chain(h, s.rows, Anchor(h, s.base)) && !AllSeeTip(h, s, es)
    ensures SharedPointer(Run(h, s, es).rows)
    decreases |es|
  {
    FirstMissed(h, s, es);
    var t := Apply(h, s, es[0]);
    StepInv(h, s, es);
    ApplyGrows(h, s, es[0]);
    if SeesTip(h, s, es[0]) {
      SeesTipChain(h, s, es[0]);
      MissedTipStays(h, t, es[1..]);
    } else {
      MissedTip(h, s, es[0]);
      RunInv(h, t, es[1..]);
    }
  }

  // Where all rows are reported valid no two have one pointer.
  lemma ValidPointersDiffer(h: Keyed, s: State)
    requires CollisionFree(h) && Inv(h, s) && AllValid(h, s.base + s.rows)
    ensures !SharedPointer(s.rows)
  {
    var rows := s.base + s.rows;
    AllValidExactlyWhen(h, rows);
    var c :| Chain(h, c, Anchor(h, rows)) && ChainRows(rows, c);
    AnchorIsFresh(h, rows);
    PointersDiffer(h, c, Anchor(h, rows));
    forall r, q | r in s.rows && q in s.rows && r.prev == q.prev ensures r == q {
      assert RowOk(h, s, r) && RowOk(h, s, q);
      assert r in c && q in c;
    }
  }

  lemma ChainPasses(h: Keyed, s: State)
    requires CollisionFree(h) && Inv(h, s) && Chain(h, s.rows, Anchor(h, s.base))
    ensures AllValid(h, s.base + s.rows)
  {
    assert forall r | r in s.rows :: RowOk(h, s, r);
    AnchorOfParts(h, s.base, s.rows);
    TableOfChain(s.base, s.rows);
    ChainIsValid(h, s.base + s.rows, s.rows);
  }

  lemma LoadingKeepsVerdict(h: Keyed, s: State)
    requires CollisionFree(h) && Inv(h, s)
    ensures Passes(h, s.base + s.rows) <==> AllValid(h, s.base + s.rows)
  {
    if s.base != [] {
      var last := s.base[|s.base| - 1];
      forall r | r in s.base ensures r == last || After(last, r) {
        if r.id == last.id { SameId(s.base, r, last); }
      }
    }
    forall r | r in s.rows ensures r.version != 1 {
      assert RowOk(h, s, r);
    }
    LoadingIsHarmless(h, s.base, s.rows);
  }

  // Over every run of any number of instances, with the lock or without it: no
  // row of the untouched table is reported, in the order verify loads it or in
  // that of the commits, exactly when each row, as it is committed, points at the
  // row committed last.
  lemma VerifyPassesExactlyWhen(h: Keyed, base: seq<Row>, es: seq<Event>)
    requires CollisionFree(h) && Legacy(h, base) && NewIds(IdsOf(base), es)
    ensures var table := base + Run(h, Start(base), es).rows;
            && Table(table)
            && (Passes(h, table) <==> AllSeeTip(h, Start(base), es))
            && (AllValid(h, table) <==> AllSeeTip(h, Start(base), es))
  {
    var t := Run(h, Start(base), es);
    StartInv(h, base);
    RunInv(h, Start(base), es);
    LoadingKeepsVerdict(h, t);
    if AllSeeTip(h, Start(base), es) {
      FreshTipsChain(h, Start(base), es);
      ChainPasses(h, t);
    } else {
      MissedTipStays(h, Start(base), es);
      if AllValid(h, base + t.rows) { ValidPointersDiffer(h, t); }
    }
  }

  // ---- one instance, and two -----------------------------------------------

  // A write begins only where no other transaction holds a row.
  predicate Locked(h: Keyed, s: State, es: seq<Event>)
    decreases |es|
  {
    es == [] || ((es[0].Write? ==> s.pending == map[]) && Locked(h, Apply(h, s, es[0]), es[1..]))
  }

  // A row is committed where the database lists it last.
  ghost predicate InOrder(s: State, e: Event) {
    Commits(s, e) ==> forall r | r in s.base + s.rows :: After(s.pending[e.id].row, r)
  }

  ghost predicate Ascending(h: Keyed, s: State, es: seq<Event>)
    decreases |es|
  {
    es == [] || (InOrder(s, es[0]) && Ascending(h, Apply(h, s, es[0]), es[1..]))
  }

  ghost predicate WritesOf(es: seq<Event>, p: nat) {
    forall e | e in es :: e.Write? ==> e.instance == p
  }

  lemma LatestIsLast(before: seq<Row>, last: Row)
    requires forall r | r in before :: After(last, r)
    ensures Latest(before + [last]) == last
  {
  }

  // What instance p keeps: the tip it carries or would read is the last row's,
  // and so is the one its pending row points at.
  ghost predicate InStep(h: Keyed, s: State, p: nat) {
    && DatabaseTip(h, s.base + s.rows) == TipOf(h, s)
    && (p in s.memory ==> s.memory[p] == TipOf(h, s))
    && (forall id | id in s.pending ::
          && s.pending[id].instance == p && p !in s.memory
          && s.pending[id].row.prev == Some(TipOf(h, s)) && s.pending[id].row.signature.Some?)
    && (forall i, j | i in s.pending && j in s.pending :: i == j)
  }

  lemma StartInStep(h: Keyed, base: seq<Row>, p: nat)
    requires Legacy(h, base)
    ensures InStep(h, Start(base), p)
  {
    AnchorOfLegacy(h, base);
    assert base + [] == base;
    if base != [] { assert base[|base| - 1] in base; }
  }

  lemma WriteInStep(h: Keyed, s: State, e: Event, p: nat)
    requires InStep(h, s, p) && e.Write? && e.instance == p && s.pending == map[]
    ensures InStep(h, Apply(h, s, e), p)
  {
    assert !Busy(s, p);
  }

  lemma DatabaseTipLast(h: Keyed, before: seq<Row>, last: Row)
    requires last.signature.Some? && forall r | r in before :: After(last, r)
    ensures DatabaseTip(h, before + [last]) == Sig(last)
  {
    LatestIsLast(before, last);
  }

  lemma CommitInStep(h: Keyed, s: State, id: nat, p: nat)
    requires InStep(h, s, p) && id in s.pending && InOrder(s, Commit(id))
    ensures SeesTip(h, s, Commit(id)) && InStep(h, Apply(h, s, Commit(id)), p)
  {
    var row, t := s.pending[id].row, Apply(h, s, Commit(id));
    DatabaseTipLast(h, s.base + s.rows, row);
    assert t.base + t.rows == (s.base + s.rows) + [row];
    assert TipOf(h, t) == Sig(row);
    assert p in t.memory ==> t.memory[p] == Sig(row);
    assert t.pending == map[];
  }

  lemma StaysInStep(h: Keyed, s: State, e: Event, p: nat)
    requires InStep(h, s, p) && InOrder(s, e) && (e.Write? ==> e.instance == p && s.pending == map[])
    ensures SeesTip(h, s, e) && InStep(h, Apply(h, s, e), p)
  {
    match e
    case Write(_, _, _, _, _) => WriteInStep(h, s, e, p);
    case Commit(id) => if id in s.pending { CommitInStep(h, s, id, p); }
    case RollBack(_) =>
    case Restart(_) =>
  }

  lemma {:induction false} OneInstanceSeesTip(h: Keyed, s: State, es: seq<Event>, p: nat)
    requires InStep(h, s, p) && WritesOf(es, p) && Locked(h, s, es) && Ascending(h, s, es)
    ensures AllSeeTip(h, s, es)
    decreases |es|
  {
    if es != [] {
      assert es[0] in es && forall e | e in es[1..] :: e in es;
      StaysInStep(h, s, es[0], p);
      OneInstanceSeesTip(h, Apply(h, s, es[0]), es[1..], p);
    }
  }

  // One instance under the lock, any mixture of own and enlisted writes,
  // failures, rollbacks and restarts: verify passes as long as rows are
  // committed in ascending order.
  lemma OneInstancePasses(h: Keyed, base: seq<Row>, es: seq<Event>, p: nat)
    requires CollisionFree(h) && Legacy(h, base) && NewIds(IdsOf(base), es) && WritesOf(es, p)
    requires Locked(h, Start(base), es) && Ascending(h, Start(base), es)
    ensures Passes(h, base + Run(h, Start(base), es).rows)
  {
    StartInStep(h, base, p);
    OneInstanceSeesTip(h, Start(base), es, p);
    VerifyPassesExactlyWhen(h, base, es);
  }

  // ---- forks ---------------------------------------------------------------

  lemma StepAt(h: Keyed, s: State, es: seq<Event>, i: nat) returns (t: State)
    requires i < |es|
    ensures t == Apply(h, s, es[i])
    ensures AllSeeTip(h, s, es[i..]) <==> SeesTip(h, s, es[i]) && AllSeeTip(h, t, es[i + 1..])
    ensures Ascending(h, s, es[i..]) <==> InOrder(s, es[i]) && Ascending(h, t, es[i + 1..])
    ensures Locked(h, s, es[i..]) <==> (es[i].Write? ==> s.pending == map[]) && Locked(h, t, es[i + 1..])
  {
    t := Apply(h, s, es[i]);
    assert es[i..][0] == es[i] && es[i..][1..] == es[i + 1..];
  }

  // One call under the lock, at places i and i + 1 of a run.
  lemma CallAt(h: Keyed, s: State, es: seq<Event>, i: nat) returns (t: State, row: Row)
    requires i + 1 < |es| && es[i].Write? && es[i + 1] == Commit(es[i].id) && s.pending == map[]
    ensures row == NewRow(h, PrevFor(h, s, es[i].instance, es[i].enlisted), es[i].id, es[i].content, es[i].createdAt)
    ensures t == State(s.base, s.rows + [row],
                       if es[i].enlisted then s.memory - {es[i].instance} else s.memory[es[i].instance := Sig(row)],
                       map[])
    ensures AllSeeTip(h, s, es[i..]) <==> row.prev == Some(TipOf(h, s)) && AllSeeTip(h, t, es[i + 2..])
    ensures Ascending(h, s, es[i..]) <==>
              (forall r | r in s.base + s.rows :: After(row, r)) && Ascending(h, t, es[i + 2..])
    ensures Locked(h, s, es[i..]) <==> Locked(h, t, es[i + 2..])
  {
    assert !Busy(s, es[i].instance);
    row := NewRow(h, PrevFor(h, s, es[i].instance, es[i].enlisted), es[i].id, es[i].content, es[i].createdAt);
    var s1 := StepAt(h, s, es, i);
    assert s1.pending == map[es[i].id := Pending(es[i].instance, es[i].enlisted, row)];
    t := StepAt(h, s1, es, i + 1);
    assert t.pending == map[];
    assert !es[i].enlisted ==> t.memory == s.memory[es[i].instance := Sig(row)];
  }

  // Three calls, one after another.
  predicate Calls(es: seq<Event>) {
    && |es| == 6
    && es[0].Write? && es[1] == Commit(es[0].id)
    && es[2].Write? && es[3] == Commit(es[2].id)
    && es[4].Write? && es[5] == Commit(es[4].id)
    && es[0].id != es[2].id && es[0].id != es[4].id && es[2].id != es[4].id
  }

  lemma CallsNewIds(es: seq<Event>)
    requires Calls(es)
    ensures NewIds({}, es)
  {
    var a, b, c := es[0].id, es[2].id, es[4].id;
    assert es[1..][1..] == es[2..] && es[2..][1..] == es[3..] && es[3..][1..] == es[4..];
    assert es[4..][1..] == es[5..] && es[5..][1..] == [];
    assert NewIds({a, b, c}, es[5..]);
    assert {a} + {b} == {a, b} && {a, b} + {c} == {a, b, c} && {} + {a} == {a};
    assert NewIds({a, b}, es[4..]) && NewIds({a, b}, es[3..]);
    assert NewIds({a}, es[2..]) && NewIds({a}, es[1..]);
  }

  lemma StartsEmpty(h: Keyed, es: seq<Event>)
    requires CollisionFree(h) && NewIds({}, es) && !AllSeeTip(h, Start([]), es)
    ensures !Passes(h, Run(h, Start([]), es).rows)
  {
    assert IdsOf([]) == {} && [] + Run(h, Start([]), es).rows == Run(h, Start([]), es).rows;
    VerifyPassesExactlyWhen(h, [], es);
  }

  // A row and its successor have different signatures.
  lemma SignaturesDiffer(h: Keyed, r: Row, q: Row)
    requires CollisionFree(h) && Chained(r) && Chained(q) && SignedRow(h, r) && SignedRow(h, q)
    requires r.prev == Some(h.genesis) && q.prev == Some(Sig(r))
    ensures Sig(r) != Sig(q)
  {
  }

  lemma FirstCall(h: Keyed, es: seq<Event>) returns (s: State, a: Row)
    requires Calls(es)
    ensures a == NewRow(h, h.genesis, es[0].id, es[0].content, es[0].createdAt)
    ensures s == State([], [a], if es[0].enlisted then map[] else map[es[0].instance := Sig(a)], map[])
    ensures AllSeeTip(h, Start([]), es) ==> AllSeeTip(h, s, es[2..])
    ensures Locked(h, Start([]), es) <==> Locked(h, s, es[2..])
    ensures Ascending(h, Start([]), es) <==> Ascending(h, s, es[2..])
  {
    assert es[0..] == es;
    s, a := CallAt(h, Start([]), es, 0);
  }

  // The second call, after one row that points at genesis.
  lemma SecondCall(h: Keyed, s1: State, es: seq<Event>, a: Row) returns (s: State, b: Row)
    requires CollisionFree(h) && Calls(es)
    requires s1.base == [] && s1.rows == [a] && s1.pending == map[]
    requires forall p | p in s1.memory :: s1.memory[p] == Sig(a)
    requires a == NewRow(h, h.genesis, es[0].id, es[0].content, es[0].createdAt)
    ensures s.base == [] && s.rows == [a, b] && s.pending == map[]
    ensures forall p | p in s1.memory && p != es[2].instance :: p in s.memory && s.memory[p] == Sig(a)
    ensures b == NewRow(h, Sig(a), es[2].id, es[2].content, es[2].createdAt) && Sig(a) != Sig(b)
    ensures AllSeeTip(h, s1, es[2..]) ==> AllSeeTip(h, s, es[4..])
    ensures Locked(h, s1, es[2..]) <==> Locked(h, s, es[4..])
    ensures Ascending(h, s1, es[2..]) <==> After(b, a) && Ascending(h, s, es[4..])
  {
    OnlyTip(h, s1, a, es[2].instance, es[2].enlisted);
    s, b := CallAt(h, s1, es, 2);
    assert s1.rows + [b] == [a, b];
    SignaturesDiffer(h, a, b);
  }

  // Where there is one row every instance takes it as its predecessor.
  lemma OnlyTip(h: Keyed, s: State, a: Row, instance: nat, enlisted: bool)
    requires s.base == [] && s.rows == [a] && a.signature.Some? && forall p | p in s.memory :: s.memory[p] == Sig(a)
    ensures PrevFor(h, s, instance, enlisted) == Sig(a)
    ensures forall r :: r in s.base + s.rows <==> r == a
  {
    assert s.base + s.rows == [a] && Latest([a]) == a;
  }

  // After two calls: the second row points at the first.
  lemma TwoCalls(h: Keyed, es: seq<Event>) returns (s: State, a: Row, b: Row)
    requires CollisionFree(h) && Calls(es)
    ensures s.base == [] && s.rows == [a, b] && s.pending == map[]
    ensures !es[0].enlisted && es[2].instance != es[0].instance ==>
              es[0].instance in s.memory && s.memory[es[0].instance] == Sig(a)
    ensures a.id == es[0].id && a.createdAt == es[0].createdAt && b.id == es[2].id && b.createdAt == es[2].createdAt
    ensures a.signature.Some? && b.signature.Some? && Sig(a) != Sig(b)
    ensures AllSeeTip(h, Start([]), es) ==> AllSeeTip(h, s, es[4..])
    ensures Locked(h, Start([]), es) <==> Locked(h, s, es[4..])
    ensures Ascending(h, Start([]), es) <==> After(b, a) && Ascending(h, s, es[4..])
  {
    var s1;
    s1, a := FirstCall(h, es);
    s, b := SecondCall(h, s1, es, a);
  }

  lemma ThirdCall(h: Keyed, s: State, es: seq<Event>, a: Row, b: Row)
    requires Calls(es) && s.base == [] && s.rows == [a, b] && s.pending == map[] && Sig(a) != Sig(b)
    requires PrevFor(h, s, es[4].instance, es[4].enlisted) == Sig(a)
    ensures !AllSeeTip(h, s, es[4..]) && Locked(h, s, es[4..])
    ensures Ascending(h, s, es[4..]) <==>
              forall r | r in [a, b] :: After(NewRow(h, Sig(a), es[4].id, es[4].content, es[4].createdAt), r)
  {
    assert [] + [a, b] == [a, b] && es[6..] == [];
    var t, c := CallAt(h, s, es, 4);
  }

  // Two instances that take turns under the lock fork the chain on the third
  // write, although every row is committed in ascending order: the first
  // instance still carries its own last signature.
  lemma TwoInstancesFork(h: Keyed, es: seq<Event>)
    requires CollisionFree(h) && Calls(es)
    requires !es[0].enlisted && es[2].instance != es[0].instance == es[4].instance && !es[4].enlisted
    requires es[0].createdAt < es[2].createdAt < es[4].createdAt
    ensures NewIds({}, es) && Locked(h, Start([]), es) && Ascending(h, Start([]), es)
    ensures !Passes(h, Run(h, Start([]), es).rows)
  {
    var s, a, b := TwoCalls(h, es);
    ThirdCall(h, s, es, a, b);
    CallsNewIds(es);
    StartsEmpty(h, es);
  }

  // One instance under the lock forks it too when two of its rows fall into one
  // millisecond with ids in descending order and an enlisted write follows.
  lemma SameInstantForks(h: Keyed, es: seq<Event>)
    requires CollisionFree(h) && Calls(es) && es[4].enlisted
    requires es[0].createdAt == es[2].createdAt && es[0].id > es[2].id
    ensures NewIds({}, es) && Locked(h, Start([]), es)
    ensures !Passes(h, Run(h, Start([]), es).rows)
  {
    var s, a, b := TwoCalls(h, es);
    assert Latest([a, b]) == a && [] + [a, b] == [a, b];
    ThirdCall(h, s, es, a, b);
    CallsNewIds(es);
    StartsEmpty(h, es);
  }

  // And without the lock one instance forks it in ascending order: its own write
  // begins while a caller's transaction still holds an uncommitted row.
  lemma UnlockedForks(h: Keyed, p: nat, a: Event, b: Event)
    requires CollisionFree(h) && a.Write? && b.Write? && a.instance == b.instance == p && a.enlisted
    requires a.id != b.id && a.createdAt < b.createdAt
    ensures var es := [a, b, Commit(a.id), Commit(b.id)];
            && NewIds({}, es) && Ascending(h, Start([]), es) && WritesOf(es, p) && !Locked(h, Start([]), es)
            && !Passes(h, Run(h, Start([]), es).rows)
  {
    var es := [a, b, Commit(a.id), Commit(b.id)];
    assert es[0..] == es && es[4..] == [];
    var s1 := StepAt(h, Start([]), es, 0);
    var s2 := StepAt(h, s1, es, 1);
    BothPending(h, a, b);
    var s3 := StepAt(h, s2, es, 2);
    var s4 := StepAt(h, s3, es, 3);
    FourNewIds(es);
    StartsEmpty(h, es);
  }

  // Both rows point at genesis, the second was created later.
  lemma BothPending(h: Keyed, a: Event, b: Event)
    requires a.Write? && b.Write? && a.instance == b.instance && a.enlisted && a.id != b.id
    ensures var x := NewRow(h, h.genesis, a.id, a.content, a.createdAt);
            var y := NewRow(h, h.genesis, b.id, b.content, b.createdAt);
            Apply(h, Apply(h, Start([]), a), b)
            == State([], [], map[],
                     map[a.id := Pending(a.instance, true, x), b.id := Pending(b.instance, b.enlisted, y)])
  {
    assert !Busy(Start([]), a.instance);
    assert !Busy(Apply(h, Start([]), a), b.instance);
  }

  lemma FourNewIds(es: seq<Event>)
    requires |es| == 4 && es[0].Write? && es[1].Write? && es[0].id != es[1].id && es[2].Commit? && es[3].Commit?
    ensures NewIds({}, es)
  {
    var a, b := es[0].id, es[1].id;
    assert es[1..][1..] == es[2..] && es[2..][1..] == es[3..] && es[3..][1..] == [];
    assert {} + {a} == {a} && {a} + {b} == {a, b};
    assert NewIds({a, b}, es[3..]) && NewIds({a, b}, es[2..]);
    assert NewIds({a}, es[1..]);
  }
}
