// listMigrationIds sorts file names, extension included; the baseline test
// compares bare ids. When do the two orders agree?
module MigrationFiles {
  import opened TextOrder

  const EXT: string := ".sql"

  predicate IsMigration(name: string) {
    |name| >= |EXT| && name[|name| - |EXT|..] == EXT
  }

  function Strip(name: string): string
    requires IsMigration(name)
  {
    name[..|name| - |EXT|]
  }

  function OnlyMigrations(names: seq<string>): (r: seq<string>)
    ensures forall n | n in r :: IsMigration(n) && n in names
  {
    if names == [] then []
    else (if IsMigration(names[0]) then [names[0]] else []) + OnlyMigrations(names[1..])
  }

  function StripAll(names: seq<string>): (r: seq<string>)
    requires forall n | n in names :: IsMigration(n)
    ensures |r| == |names| && forall i :: 0 <= i < |r| ==> r[i] == Strip(names[i])
  {
    seq(|names|, i requires 0 <= i < |names| => Strip(names[i]))
  }

  // listMigrationIds over the names a directory listing returned.
  function ListMigrationIds(names: seq<string>): seq<string> {
    var sorted := Sort(OnlyMigrations(names));
    SortedAreMigrations(OnlyMigrations(names));
    StripAll(sorted)
  }

  lemma {:induction false} SortedAreMigrations(names: seq<string>)
    requires forall n | n in names :: IsMigration(n)
    ensures forall n | n in Sort(names) :: n in names
  {
    if names != [] {
      SortedAreMigrations(names[1..]);
      InsertElements(names[0], Sort(names[1..]));
      forall n | n in Sort(names) ensures n in names {
        assert n in multiset(Sort(names));
        assert n == names[0] || n in Sort(names[1..]);
      }
    }
  }

  lemma {:induction false} OnlyMigrationsDistinct(names: seq<string>)
    requires Distinct(names)
    ensures Distinct(OnlyMigrations(names))
    ensures forall n | n in names && IsMigration(n) :: n in OnlyMigrations(names)
  {
    if names != [] {
      assert forall j :: 0 < j < |names| ==> names[j] != names[0];
      assert names[0] !in names[1..];
      OnlyMigrationsDistinct(names[1..]);
      assert names == [names[0]] + names[1..];
    }
  }

  // The listed ids are the sorted migration files without their extension.
  lemma ListedFiles(names: seq<string>)
    ensures var ids, sorted := ListMigrationIds(names), Sort(OnlyMigrations(names));
            |ids| == |sorted| && forall i | 0 <= i < |ids| :: ids[i] + EXT == sorted[i]
  {
    var files := OnlyMigrations(names);
    SortedAreMigrations(files);
    var ids, sorted := ListMigrationIds(names), Sort(files);
    forall i | 0 <= i < |ids| ensures ids[i] + EXT == sorted[i] {
      assert sorted[i] in sorted && IsMigration(sorted[i]);
      assert sorted[i] == sorted[i][..|sorted[i]| - 4] + sorted[i][|sorted[i]| - 4..];
    }
  }

  lemma SortedDistinct(files: seq<string>)
    requires Distinct(files)
    ensures var sorted := Sort(files);
            && (forall i, j :: 0 <= i < j < |sorted| ==> Less(sorted[i], sorted[j]) && sorted[i] != sorted[j])
            && (forall f :: f in sorted <==> f in files)
  {
    SortSorts(files);
    var sorted := Sort(files);
    forall i, j | 0 <= i < j < |sorted| ensures sorted[i] != sorted[j] {
      Trichotomy(sorted[i], sorted[j]);
    }
    forall f ensures f in sorted <==> f in files {
      assert f in multiset(files) <==> f in files;
      assert f in multiset(sorted) <==> f in sorted;
    }
  }

  // The listing is the ids of the directory's migrations, each once, in the
  // order of the file names.
  lemma ListingIsTheDirectory(names: seq<string>)
    requires Distinct(names)
    ensures var ids := ListMigrationIds(names);
            && Distinct(ids)
            && (forall id :: id in ids <==> id + EXT in names)
            && (forall i, j :: 0 <= i < j < |ids| ==> Less(ids[i] + EXT, ids[j] + EXT))
  {
    var files := OnlyMigrations(names);
    OnlyMigrationsDistinct(names);
    SortedDistinct(files);
    ListedFiles(names);
    var ids, sorted := ListMigrationIds(names), Sort(files);
    forall id ensures id in ids <==> id + EXT in names {
      var f := id + EXT;
      assert IsMigration(f) && Strip(f) == id;
      if id in ids {
        var i :| 0 <= i < |ids| && ids[i] == id;
        assert sorted[i] in sorted;
      }
      if f in names {
        var i :| 0 <= i < |sorted| && sorted[i] == f;
        assert ids[i] + EXT == id + EXT && ids[i] == (ids[i] + EXT)[..|ids[i]|];
      }
    }
  }

  // p's file sorts behind the file of its own extension q.
  predicate Clash(p: string, q: string) {
    p < q && Less(q[|p|..] + EXT, EXT)
  }

  lemma PrefixOrder(p: string, q: string)
    requires p < q
    ensures Less(p, q) && (Less(p + EXT, q + EXT) <==> !Clash(p, q))
  {
    var t := q[|p|..];
    assert q == p + t && p == p + [];
    CommonPrefix(p, [], t);
    assert q + EXT == p + (t + EXT);
    CommonPrefix(p, EXT, t + EXT);
    Trichotomy(EXT, t + EXT);
    assert |t + EXT| > |EXT|;
  }

  // The two orders agree on a pair exactly when neither id clashes with the other.
  lemma FileOrderIsIdOrder(a: string, b: string)
    requires a != b
    ensures (Less(a + EXT, b + EXT) <==> Less(a, b)) <==> !Clash(a, b) && !Clash(b, a)
  {
    if a <= b {
      PrefixOrder(a, b);
    } else if b <= a {
      PrefixOrder(b, a);
      Trichotomy(a, b);
      Trichotomy(a + EXT, b + EXT);
      assert |a + EXT| > |b + EXT|;
    } else {
      Divergent(a, b, EXT, EXT);
    }
  }

  predicate WordChar(c: char) {
    'a' <= c <= 'z' || 'A' <= c <= 'Z' || '0' <= c <= '9' || c == '_'
  }

  // For ids without a dot, a clash is one extending the other by a character
  // below the dot (a hyphen, say); ids over letters, digits and underscore have none.
  lemma ClashCharacter(p: string, q: string)
    requires '.' !in q
    ensures Clash(p, q) <==> p < q && q[|p|] < '.'
    ensures (forall c | c in q :: WordChar(c)) ==> !Clash(p, q)
  {
    if p < q {
      var t := q[|p|..];
      assert t[0] == q[|p|] && t[0] in q;
      assert (t + EXT)[0] == t[0];
    }
  }

  // ---- the ids the baseline marks -----------------------------------------

  // allIds.filter(id => id <= baselineThrough)
  function Covered(ids: seq<string>, marker: string): seq<string> {
    if ids == [] then []
    else (if AtMost(ids[0], marker) then [ids[0]] else []) + Covered(ids[1..], marker)
  }

  lemma {:induction false} CoveredElements(ids: seq<string>, marker: string)
    ensures forall id :: id in Covered(ids, marker) <==> id in ids && AtMost(id, marker)
  {
    if ids != [] {
      CoveredElements(ids[1..], marker);
      assert ids == [ids[0]] + ids[1..];
    }
  }

  lemma {:induction false} NothingCovered(ids: seq<string>, marker: string)
    requires forall id | id in ids :: !AtMost(id, marker)
    ensures Covered(ids, marker) == []
  {
    if ids != [] { NothingCovered(ids[1..], marker); }
  }

  lemma {:induction false} CoveredIsPrefix(ids: seq<string>, marker: string)
    requires Increasing(ids)
    ensures Covered(ids, marker) <= ids
  {
    if ids != [] {
      if AtMost(ids[0], marker) {
        CoveredIsPrefix(ids[1..], marker);
        assert ids == [ids[0]] + ids[1..];
      } else {
        forall id | id in ids ensures !AtMost(id, marker) {
          var i :| 0 <= i < |ids| && ids[i] == id;
          if i > 0 && AtMost(id, marker) {
            if id == marker {
            } else {
              Transitive(ids[0], id, marker);
            }
          }
        }
        NothingCovered(ids, marker);
      }
    }
  }

  ghost predicate NoClash(ids: seq<string>) {
    forall i, j :: 0 <= i < |ids| && 0 <= j < |ids| ==> !Clash(ids[i], ids[j])
  }

  lemma ListedIdsIncreaseExactlyWhen(ids: seq<string>)
    requires forall i, j :: 0 <= i < j < |ids| ==> Less(ids[i] + EXT, ids[j] + EXT)
    ensures Increasing(ids) <==> NoClash(ids)
  {
    forall i, j | 0 <= i < j < |ids|
      ensures Less(ids[i], ids[j]) <==> !Clash(ids[i], ids[j]) && !Clash(ids[j], ids[i])
    {
      Trichotomy(ids[i] + EXT, ids[j] + EXT);
      FileOrderIsIdOrder(ids[i], ids[j]);
    }
    forall i, j | 0 <= i < |ids| && 0 <= j < |ids| && Increasing(ids)
      ensures !Clash(ids[i], ids[j])
    {
      if i < j { assert Less(ids[i], ids[j]); } else if j < i { assert Less(ids[j], ids[i]); }
    }
  }

  lemma PrefixKeepsEarlier(p: seq<string>, s: seq<string>, i: nat, j: nat)
    requires Distinct(s) && p <= s && i < j < |s| && s[j] in p
    ensures s[i] in p
  {
  }

  // Two ids listed against their bare order: marking through the second one
  // leaves the first out.
  lemma GapInBaseline(ids: seq<string>, i: nat, j: nat)
    requires Distinct(ids) && i < j < |ids| && Less(ids[j], ids[i])
    ensures !(Covered(ids, ids[j]) <= ids)
  {
    var covered := Covered(ids, ids[j]);
    CoveredElements(ids, ids[j]);
    Trichotomy(ids[i], ids[j]);
    assert ids[j] in ids && ids[j] in covered;
    if covered <= ids { PrefixKeepsEarlier(covered, ids, i, j); }
  }

  // For a listed corpus: every marker covers a leading part of it exactly when
  // no two ids clash.
  lemma BaselineMarksAPrefixExactlyWhen(ids: seq<string>)
    requires forall i, j :: 0 <= i < j < |ids| ==> Less(ids[i] + EXT, ids[j] + EXT)
    ensures (forall marker :: Covered(ids, marker) <= ids) <==> NoClash(ids)
  {
    ListedIdsIncreaseExactlyWhen(ids);
    if NoClash(ids) {
      forall marker ensures Covered(ids, marker) <= ids {
        CoveredIsPrefix(ids, marker);
      }
    } else {
      forall i, j | 0 <= i < j < |ids| ensures ids[i] != ids[j] {
        Trichotomy(ids[i] + EXT, ids[j] + EXT);
      }
      var i, j :| 0 <= i < j < |ids| && !Less(ids[i], ids[j]);
      Trichotomy(ids[i], ids[j]);
      GapInBaseline(ids, i, j);
    }
  }

  // Such a directory: the hyphen sorts before the dot, so "a-b.sql" is listed
  // before "a.sql", and a marker "a" leaves it out.
  lemma HyphenLeavesGap()
    ensures var ids := ListMigrationIds(["a.sql", "a-b.sql"]);
            ids == ["a-b", "a"] && Clash("a", "a-b") && Covered(ids, "a") == ["a"] && !(Covered(ids, "a") <= ids)
  {
    var p, q := "a.sql", "a-b.sql";
    assert q[1..][0] < p[1..][0] && Less(q, p) && !Less(p, q);
    assert p[1..] == EXT && q[3..] == EXT;
    assert [p, q][1..] == [q] && [q][1..] == [];
    assert OnlyMigrations([q]) == [q] && OnlyMigrations([p, q]) == [p, q];
    assert Sort([q]) == [q] && Insert(p, []) == [p] && Insert(p, [q]) == [q, p];
    assert Sort([p, q]) == [q, p];
    var ids := ListMigrationIds([p, q]);
    assert ids[0] == q[..3] == "a-b" && ids[1] == p[..1] == "a";
    assert ids == ["a-b", "a"];
    assert ids[1..] == ["a"] && ["a"][1..] == [];
    assert "a-b"[1..] == "-b" && "a"[1..] == "" && !AtMost("a-b", "a");
    assert "a" < "a-b" && Less("-b" + EXT, EXT);
  }
}
