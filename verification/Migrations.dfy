// One uninterrupted run of the migration script against a database: the three
// bootstrap cases and the ordered apply loop.
module Migrations {
  import opened Wrappers
  import opened TextOrder
  import opened MigrationFiles

  // What the SQL does to a schema: each migration, what a failing
  // CONCURRENTLY migration may leave behind, and baseline.sql.
  datatype Sql<!S> = Sql(effect: (string, S) -> S, debris: (string, S) -> S, baseline: S -> S)

  // The files of one release. marker is the baseline-through id, when the
  // header line is present; rejected are the migrations whose SQL throws.
  datatype Release = Release(
    ids: seq<string>,
    concurrent: set<string>,
    marker: Option<string>,
    baselineRejected: bool,
    rejected: set<string>)

  datatype MigrateResult = MigrateResult(applied: seq<string>, skipped: seq<string>, backfilled: seq<string>)

  datatype MigrateError = MissingMarker | BaselineFailed | MigrationFailed(id: string)

  // ids[..n] without those already recorded, in order.
  function Pending(ids: seq<string>, known: set<string>): (todo: seq<string>) {
    if ids == [] then []
    else (if ids[0] in known then [] else [ids[0]]) + Pending(ids[1..], known)
  }

  function Recorded(ids: seq<string>, known: set<string>): (done: seq<string>) {
    if ids == [] then []
    else (if ids[0] in known then [ids[0]] else []) + Recorded(ids[1..], known)
  }

  function ApplyAll<S>(sql: Sql<S>, ids: seq<string>, schema: S): S {
    if ids == [] then schema else ApplyAll(sql, ids[1..], sql.effect(ids[0], schema))
  }

  function Elements(ids: seq<string>): set<string> {
    set id | id in ids
  }

  lemma {:induction false} ApplyAllConcat<S>(sql: Sql<S>, xs: seq<string>, ys: seq<string>, schema: S)
    ensures ApplyAll(sql, xs + ys, schema) == ApplyAll(sql, ys, ApplyAll(sql, xs, schema))
  {
    if xs == [] {
      assert xs + ys == ys;
    } else {
      assert (xs + ys)[1..] == xs[1..] + ys;
      ApplyAllConcat(sql, xs[1..], ys, sql.effect(xs[0], schema));
    }
  }

  lemma {:induction false} PendingSnoc(ids: seq<string>, id: string, known: set<string>)
    ensures Pending(ids + [id], known) == Pending(ids, known) + (if id in known then [] else [id])
    ensures Recorded(ids + [id], known) == Recorded(ids, known) + (if id in known then [id] else [])
  {
    if ids != [] {
      assert (ids + [id])[1..] == ids[1..] + [id];
      PendingSnoc(ids[1..], id, known);
    }
  }

  // applied and skipped split the corpus: nothing lost, nothing twice.
  lemma {:induction false} PendingPartitions(ids: seq<string>, known: set<string>)
    ensures multiset(Pending(ids, known)) + multiset(Recorded(ids, known)) == multiset(ids)
    ensures forall id :: id in Pending(ids, known) <==> id in ids && id !in known
    ensures forall id :: id in Recorded(ids, known) <==> id in ids && id in known
  {
    if ids != [] {
      assert ids == [ids[0]] + ids[1..];
      PendingPartitions(ids[1..], known);
    }
  }

  // What is applied keeps the order of the corpus.
  lemma PendingKeepsOrder(ids: seq<string>, known: set<string>, i: nat, j: nat) returns (a: nat, b: nat)
    requires i < j < |ids| && ids[i] !in known && ids[j] !in known
    ensures a < b < |Pending(ids, known)|
    ensures Pending(ids, known)[a] == ids[i] && Pending(ids, known)[b] == ids[j]
  {
    a, b := |Pending(ids[..i], known)|, |Pending(ids[..j], known)|;
    PlaceOfPending(ids, known, i);
    PlaceOfPending(ids, known, j);
    PlaceOfPending(ids[..j], known, i);
    assert ids[..j][..i] == ids[..i];
  }

  lemma PlaceOfPending(ids: seq<string>, known: set<string>, i: nat)
    requires i < |ids| && ids[i] !in known
    ensures var place := |Pending(ids[..i], known)|;
            place < |Pending(ids, known)| && Pending(ids, known)[place] == ids[i]
  {
    assert ids == ids[..i] + ([ids[i]] + ids[i + 1..]);
    PendingConcat(ids[..i], [ids[i]] + ids[i + 1..], known);
    assert ([ids[i]] + ids[i + 1..])[1..] == ids[i + 1..];
  }

  // A schema after a list of migrations: each one's SQL, in turn, on what those
  // before it left.
  lemma AppliedInTurn<S>(sql: Sql<S>, ids: seq<string>, id: string, schema: S)
    ensures ApplyAll(sql, [], schema) == schema
    ensures ApplyAll(sql, ids + [id], schema) == sql.effect(id, ApplyAll(sql, ids, schema))
  {
    ApplyAllConcat(sql, ids, [id], schema);
    assert [id][1..] == [];
  }

  lemma {:induction false} NothingPending(ids: seq<string>, known: set<string>)
    requires Elements(ids) <= known
    ensures Pending(ids, known) == [] && Recorded(ids, known) == ids
  {
    if ids != [] {
      assert ids[0] in Elements(ids);
      assert Elements(ids[1..]) <= Elements(ids);
      NothingPending(ids[1..], known);
    }
  }

  lemma {:induction false} AllPending(ids: seq<string>, known: set<string>)
    requires forall id | id in ids :: id !in known
    ensures Pending(ids, known) == ids
  {
    if ids != [] { AllPending(ids[1..], known); }
  }

  lemma {:induction false} PendingConcat(xs: seq<string>, ys: seq<string>, known: set<string>)
    ensures Pending(xs + ys, known) == Pending(xs, known) + Pending(ys, known)
  {
    if xs == [] {
      assert xs + ys == ys;
    } else {
      assert (xs + ys)[1..] == xs[1..] + ys;
      PendingConcat(xs[1..], ys, known);
    }
  }

  // The loop stopped at ids[k]: everything before it is in effect and
  // recorded; ids[k] left nothing, or its debris when it is CONCURRENTLY.
  predicate StoppedAt<S(==)>(sql: Sql<S>, release: Release, k: int, base: set<string>, start: S,
                             recorded: set<string>, schema: S)
  {
    && 0 <= k < |release.ids|
    && release.ids[k] in release.rejected && release.ids[k] !in base
    && recorded == base + Elements(release.ids[..k])
    && var before := ApplyAll(sql, Pending(release.ids[..k], base), start);
       schema == if release.ids[k] in release.concurrent then sql.debris(release.ids[k], before) else before
  }

  class Database<S(==)> {
    var tracked: bool        // schema_migrations exists
    var sentinel: bool       // the templates table exists
    var recorded: set<string>
    var schema: S
    var lockHeld: bool

    predicate Valid()
      reads this
    {
      !tracked ==> recorded == {}
    }

    constructor (sentinel: bool, schema: S)
      ensures Valid() && !tracked && this.sentinel == sentinel && this.schema == schema && recorded == {} && !lockHeld
    {
      this.tracked, this.sentinel, this.recorded, this.schema, this.lockHeld := false, sentinel, {}, schema, false;
    }

    // INSERT ... ON CONFLICT DO NOTHING, one id after the other.
    method MarkAll(ids: seq<string>)
      modifies this`recorded
      ensures recorded == old(recorded) + Elements(ids)
    {
      for i := 0 to |ids|
        invariant recorded == old(recorded) + Elements(ids[..i])
      {
        recorded := recorded + {ids[i]};
        assert ids[..i + 1] == ids[..i] + [ids[i]];
      }
      assert ids[..|ids|] == ids;
    }

    method FilterCovered(ids: seq<string>, marker: string) returns (covered: seq<string>)
      ensures covered == Covered(ids, marker)
    {
      covered := [];
      var i := |ids|;
      while i > 0
        invariant 0 <= i <= |ids|
        invariant covered == Covered(ids[i..], marker)
      {
        i := i - 1;
        assert ids[i..][1..] == ids[i + 1..];
        if AtMost(ids[i], marker) { covered := [ids[i]] + covered; }
      }
    }

    // The loop over allIds. It stops at the first migration whose SQL throws:
    // a transactional one leaves nothing, a CONCURRENTLY one its debris.
    method ApplyPending(sql: Sql<S>, release: Release) returns (result: Result<MigrateResult, MigrateError>)
      requires tracked
      modifies this`recorded, this`schema
      ensures result.Ok? ==>
                && result.value == MigrateResult(Pending(release.ids, old(recorded)),
                                                  Recorded(release.ids, old(recorded)), [])
                && (forall id | id in Pending(release.ids, old(recorded)) :: id !in release.rejected)
                && recorded == old(recorded) + Elements(release.ids)
                && schema == ApplyAll(sql, Pending(release.ids, old(recorded)), old(schema))
      ensures result.Err? ==>
                exists k :: StoppedAt(sql, release, k, old(recorded), old(schema), recorded, schema)
                            && result.error == MigrationFailed(release.ids[k])
    {
      ghost var s0 := schema;
      var ids := release.ids;
      var alreadyApplied := recorded;
      var applied: seq<string>, skipped: seq<string> := [], [];
      var i := 0;
      while i < |ids|
        invariant 0 <= i <= |ids|
        invariant applied == Pending(ids[..i], alreadyApplied)
        invariant skipped == Recorded(ids[..i], alreadyApplied)
        invariant forall id | id in applied :: id !in release.rejected
        invariant recorded == alreadyApplied + Elements(ids[..i])
        invariant schema == ApplyAll(sql, applied, s0)
      {
        var id := ids[i];
        assert ids[..i + 1] == ids[..i] + [id];
        PendingSnoc(ids[..i], id, alreadyApplied);
        if id in alreadyApplied {
          skipped := skipped + [id];
        } else if id in release.rejected {
          if id in release.concurrent { schema := sql.debris(id, schema); }
          assert StoppedAt(sql, release, i, alreadyApplied, s0, recorded, schema);
          return Err(MigrationFailed(id));
        } else {
          ApplyAllConcat(sql, applied, [id], s0);
          assert ApplyAll(sql, [id], schema) == sql.effect(id, schema) by { assert [id][1..] == []; }
          schema := sql.effect(id, schema);
          recorded := recorded + {id};
          applied := applied + [id];
        }
        i := i + 1;
      }
      assert ids[..|ids|] == ids;
      return Ok(MigrateResult(applied, skipped, []));
    }

    // What the run is meant to have done, case by case.
    twostate predicate Migrated(sql: Sql<S>, release: Release, new result: Result<MigrateResult, MigrateError>)
      reads this
    {
      var onEmpty := !old(tracked) && !old(sentinel);
      var base := if onEmpty && release.marker.Some?
                  then Elements(Covered(release.ids, release.marker.value)) else old(recorded);
      && (!old(tracked) && old(sentinel) ==>
            && result == Ok(MigrateResult([], [], release.ids))
            && schema == old(schema) && recorded == Elements(release.ids))
      && (onEmpty && release.marker.None? ==> result == Err(MissingMarker))
      && (onEmpty && release.marker.Some? && release.baselineRejected ==> result == Err(BaselineFailed))
      && (result == Err(MissingMarker) || result == Err(BaselineFailed) ==>
            onEmpty && schema == old(schema) && recorded == {})
      && (result.Ok? && !(!old(tracked) && old(sentinel)) ==>
            && result.value == MigrateResult(Pending(release.ids, base), Recorded(release.ids, base), [])
            && recorded == base + Elements(release.ids)
            && schema == ApplyAll(sql, Pending(release.ids, base),
                                  if onEmpty then sql.baseline(old(schema)) else old(schema)))
      && (result.Err? && result.error.MigrationFailed? ==>
            var start := if onEmpty then sql.baseline(old(schema)) else old(schema);
            exists k :: StoppedAt(sql, release, k, base, start, recorded, schema)
                        && result.error == MigrationFailed(release.ids[k]))
    }

    // runMigrations; the advisory lock is free when the run takes it, and the
    // finally block gives it back on every path.
    method RunMigrations(sql: Sql<S>, release: Release) returns (result: Result<MigrateResult, MigrateError>)
      requires Valid() && !lockHeld
      modifies this
      ensures Valid() && !lockHeld && tracked && sentinel == old(sentinel)
      ensures old(recorded) <= recorded
      ensures Migrated(sql, release, result)
    {
      lockHeld := true;
      var tableExisted := tracked;
      tracked := true;
      if !tableExisted && sentinel {
        MarkAll(release.ids);
        lockHeld := false;
        return Ok(MigrateResult([], [], release.ids));
      }
      if !tableExisted {
        if release.marker.None? {
          lockHeld := false;
          return Err(MissingMarker);
        }
        if release.baselineRejected {
          lockHeld := false;
          return Err(BaselineFailed);
        }
        schema := sql.baseline(schema);
        var baselineIds := FilterCovered(release.ids, release.marker.value);
        MarkAll(baselineIds);
        assert recorded == Elements(baselineIds);
      }
      result := ApplyPending(sql, release);
      lockHeld := false;
    }
  }

  // ---- fresh and incremental installs agree -------------------------------

  lemma BehindTheMarker(ids: seq<string>, marker: string)
    requires Increasing(ids)
    ensures Covered(ids, marker) <= ids
    ensures var rest := ids[|Covered(ids, marker)|..];
            ids == Covered(ids, marker) + rest && forall id | id in rest :: id !in Elements(Covered(ids, marker))
  {
    var covered := Covered(ids, marker);
    CoveredIsPrefix(ids, marker);
    IncreasingIsDistinct(ids);
    var rest := ids[|covered|..];
    forall k, j | 0 <= k < |rest| && 0 <= j < |covered| ensures covered[j] != rest[k] {
      assert covered[j] == ids[j] && rest[k] == ids[|covered| + k];
    }
  }

  // If baseline.sql has the effect of the corpus through its marker, a fresh
  // run ends with the schema and the ids of a database that applied the whole
  // corpus in order, whichever ids the marker covers.
  lemma FreshEqualsIncremental<S>(sql: Sql<S>, ids: seq<string>, marker: string, empty: S, origin: S)
    requires Increasing(ids)
    requires sql.baseline(empty) == ApplyAll(sql, Covered(ids, marker), origin)
    ensures var base := Elements(Covered(ids, marker));
            && ApplyAll(sql, Pending(ids, base), sql.baseline(empty)) == ApplyAll(sql, ids, origin)
            && base + Elements(ids) == Elements(ids)
  {
    var covered := Covered(ids, marker);
    var base := Elements(covered);
    BehindTheMarker(ids, marker);
    var rest := ids[|covered|..];
    PendingConcat(covered, rest, base);
    NothingPending(covered, base);
    AllPending(rest, base);
    assert Pending(ids, base) == rest;
    ApplyAllConcat(sql, covered, rest, origin);
  }

  // The same, as a statement about two runs of the script: a fresh install of
  // a release and a tracked database that has nothing recorded yet.
  method InstallBothWays<S(==)>(sql: Sql<S>, release: Release, empty: S, origin: S)
    returns (installed: Database<S>, incremental: Database<S>,
             a: Result<MigrateResult, MigrateError>, b: Result<MigrateResult, MigrateError>)
    requires Increasing(release.ids) && release.marker.Some?
    requires sql.baseline(empty) == ApplyAll(sql, Covered(release.ids, release.marker.value), origin)
    ensures a.Ok? && b.Ok? ==> installed.schema == incremental.schema && installed.recorded == incremental.recorded
  {
    installed := new Database(false, empty);
    a := installed.RunMigrations(sql, release);
    incremental := new Database(false, origin);
    incremental.tracked := true;
    b := incremental.RunMigrations(sql, release);
    FreshEqualsIncremental(sql, release.ids, release.marker.value, empty, origin);
    AllPending(release.ids, {});
  }

  // A second run over the same release applies nothing: it skips the whole corpus.
  method RunTwice<S(==)>(db: Database<S>, sql: Sql<S>, release: Release)
    returns (first: Result<MigrateResult, MigrateError>, second: Result<MigrateResult, MigrateError>)
    requires db.Valid() && !db.lockHeld
    modifies db
    ensures first.Ok? ==> second == Ok(MigrateResult([], release.ids, []))
  {
    first := db.RunMigrations(sql, release);
    if first.Ok? {
      ghost var known := db.recorded;
      assert Elements(release.ids) <= known;
      NothingPending(release.ids, known);
      label again:
      second := db.RunMigrations(sql, release);
      if second.Err? {
        PendingPartitions(release.ids, known);
      }
    } else {
      second := first;
    }
  }

  lemma {:induction false} PendingBehind(ids: seq<string>, base: set<string>, done: set<string>)
    requires forall id | id in ids :: id !in done
    ensures Pending(ids, base + done) == Pending(ids, base)
  {
    if ids != [] {
      PendingBehind(ids[1..], base, done);
    }
  }

  // The ids before place k are done; what was pending behind it still is.
  lemma WhatIsLeft<S>(sql: Sql<S>, ids: seq<string>, base: set<string>, k: nat, start: S)
    requires Distinct(ids) && k <= |ids|
    ensures var done := base + Elements(ids[..k]);
            && done + Elements(ids) == base + Elements(ids)
            && ApplyAll(sql, Pending(ids, done), ApplyAll(sql, Pending(ids[..k], base), start))
               == ApplyAll(sql, Pending(ids, base), start)
  {
    var before, behind, done := ids[..k], ids[k..], base + Elements(ids[..k]);
    assert ids == before + behind;
    forall i, j | 0 <= i < |before| && 0 <= j < |behind| ensures before[i] != behind[j] {
      assert before[i] == ids[i] && behind[j] == ids[k + j];
    }
    PendingConcat(before, behind, done);
    PendingConcat(before, behind, base);
    NothingPending(before, done);
    PendingBehind(behind, base, Elements(before));
    assert Pending(ids, done) == Pending(behind, base);
    ApplyAllConcat(sql, Pending(before, base), Pending(behind, base), start);
  }

  // A run that fails at a transactional migration can be resumed: once its SQL has
  // been put right, the next run ends where a run without the failure would have.
  method ResumeAfterFailure<S(==)>(db: Database<S>, sql: Sql<S>, release: Release)
    returns (first: Result<MigrateResult, MigrateError>, second: Result<MigrateResult, MigrateError>)
    requires db.Valid() && !db.lockHeld && Distinct(release.ids)
    modifies db
    ensures first.Err? && first.error.MigrationFailed? && first.error.id !in release.concurrent ==>
              var onEmpty := !old(db.tracked) && !old(db.sentinel);
              var base := if onEmpty && release.marker.Some?
                          then Elements(Covered(release.ids, release.marker.value)) else old(db.recorded);
              var start := if onEmpty then sql.baseline(old(db.schema)) else old(db.schema);
              && second.Ok? && db.recorded == base + Elements(release.ids)
              && db.schema == ApplyAll(sql, Pending(release.ids, base), start)
  {
    ghost var onEmpty := !db.tracked && !db.sentinel;
    ghost var base := if onEmpty && release.marker.Some?
                      then Elements(Covered(release.ids, release.marker.value)) else db.recorded;
    ghost var start := if onEmpty then sql.baseline(db.schema) else db.schema;
    first := db.RunMigrations(sql, release);
    if first.Err? && first.error.MigrationFailed? && first.error.id !in release.concurrent {
      ghost var k :| StoppedAt(sql, release, k, base, start, db.recorded, db.schema)
                     && first.error == MigrationFailed(release.ids[k]);
      WhatIsLeft(sql, release.ids, base, k, start);
      second := db.RunMigrations(sql, release.(rejected := {}));
    } else {
      second := first;
    }
  }
}
