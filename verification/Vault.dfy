/**
 * Backups with their content-addressed images: creating a backup, rotating, collecting the vault
 * and restoring. The file system is faithful, so an object of the vault holds the content its
 * digest names. Every change of the directory is one durable effect, and a crash keeps a prefix.
 */
module Vault {
  import opened Common
  import opened BackupNames
  import opened BackupRotation

  type Digest = nat

  /** A relative path: within the image directory, or leading out of it. */
  datatype Path = Within(id: nat) | Escaping(id: nat)

  /** The recorded digest of an image, None when it is not a sha256 digest in hexadecimal. */
  datatype ImageRow = ImageRow(path: Path, sha: Option<Digest>)

  /** Image files by path, each with the digest of its content. */
  type Images = map<nat, Digest>

  /** `reported` remembers what the run that made a backup reported missing. */
  datatype Directory = Directory(backups: map<string, seq<ImageRow>>, objects: set<Digest>, reported: map<string, nat>)

  datatype Effect =
    | Write(name: string, rows: seq<ImageRow>)
    | Store(digest: Digest)
    | Unlink(name: string)
    | Collect(digest: Digest)

  function Apply(d: Directory, e: Effect): Directory {
    match e
    case Write(name, rows) => d.(backups := d.backups[name := rows], reported := d.reported - {name})
    case Store(digest) => d.(objects := d.objects + {digest})
    case Unlink(name) => d.(backups := d.backups - {name}, reported := d.reported - {name})
    case Collect(digest) => d.(objects := d.objects - {digest})
  }

  function ApplyAll(d: Directory, es: seq<Effect>): Directory
    decreases es
  {
    if es == [] then d else ApplyAll(Apply(d, es[0]), es[1..])
  }

  // ----------------------------------------------------------------- the images

  predicate InVault(objects: set<Digest>, row: ImageRow) {
    row.sha.Some? && row.sha.value in objects
  }

  /** The image file of a row still has the recorded content. */
  predicate SourceMatches(images: Images, row: ImageRow) {
    row.sha.Some? && row.path.Within? && row.path.id in images && images[row.path.id] == row.sha.value
  }

  /** The objects `copySnapshotImages` stores, in order. */
  function CopyPlan(objects: set<Digest>, images: Images, rows: seq<ImageRow>): seq<Effect>
    decreases rows
  {
    if rows == [] then []
    else if !InVault(objects, rows[0]) && SourceMatches(images, rows[0]) then
      [Store(rows[0].sha.value)] + CopyPlan(objects + {rows[0].sha.value}, images, rows[1..])
    else CopyPlan(objects, images, rows[1..])
  }

  /** The rows it counts as missing. */
  function CopyMissing(objects: set<Digest>, images: Images, rows: seq<ImageRow>): nat
    decreases rows
  {
    if rows == [] then 0
    else if InVault(objects, rows[0]) then CopyMissing(objects, images, rows[1..])
    else if SourceMatches(images, rows[0]) then CopyMissing(objects + {rows[0].sha.value}, images, rows[1..])
    else 1 + CopyMissing(objects, images, rows[1..])
  }

  function Digests(rows: seq<ImageRow>): set<Digest> {
    set i | 0 <= i < |rows| && rows[i].sha.Some? :: rows[i].sha.value
  }

  /** The digests of all backups a directory listing shows. */
  ghost function Retained(backups: map<string, seq<ImageRow>>): set<Digest> {
    set name, i | name in backups && Parse(name).Some? && 0 <= i < |backups[name]| && backups[name][i].sha.Some?
      :: backups[name][i].sha.value
  }

  // ------------------------------------------------------------------- the runs

  /**
   * One backup run: the live image rows and image files, the name chosen, whether the snapshot
   * verifies, the listing used for the rotation, the names that cannot be unlinked, and the vault
   * objects visited by the collection, None when it is given up.
   */
  datatype Attempt = Attempt(
    live: seq<ImageRow>, images: Images, target: string, verifies: bool,
    listing: seq<string>, stuck: set<string>, visited: Option<seq<Digest>>)

  function UnlinkPlan(ps: seq<ParsedName>, target: string, stuck: set<string>): seq<Effect> {
    if ps == [] then []
    else
      (if ps[0].filename == target || ps[0].filename in stuck then [] else [Unlink(ps[0].filename)])
      + UnlinkPlan(ps[1..], target, stuck)
  }

  function CollectPlan(visited: seq<Digest>, keep: set<Digest>): seq<Effect> {
    if visited == [] then []
    else (if visited[0] in keep then [] else [Collect(visited[0])]) + CollectPlan(visited[1..], keep)
  }

  /** Everything up to the collection. */
  function FillPlan(d: Directory, a: Attempt): seq<Effect> {
    [Write(a.target, a.live)] + CopyPlan(d.objects, a.images, a.live)
      + UnlinkPlan(Deleted(ParsedOf(a.listing)), a.target, a.stuck)
  }

  ghost function Plan(d: Directory, a: Attempt): seq<Effect> {
    if !a.verifies then [Write(a.target, a.live), Unlink(a.target)]
    else
      var filled := ApplyAll(d, FillPlan(d, a));
      FillPlan(d, a)
        + if a.visited.None? then [] else CollectPlan(a.visited.value, Digests(a.live) + Retained(filled.backups))
  }

  /** A run that is not cut short reports what it could not copy. */
  ghost function Step(d: Directory, a: Attempt, crashAfter: Option<nat>): Directory
    requires a.target !in d.backups
  {
    var plan := Plan(d, a);
    if crashAfter.Some? then ApplyAll(d, if crashAfter.value < |plan| then plan[..crashAfter.value] else plan)
    else
      var done := ApplyAll(d, plan);
      if a.verifies then done.(reported := done.reported[a.target := CopyMissing(d.objects, a.images, a.live)])
        else done
  }

  ghost predicate Reachable(d: Directory, runs: seq<(Attempt, Option<nat>)>, end: Directory)
    decreases runs
  {
    if runs == [] then end == d
    else runs[0].0.target !in d.backups && Reachable(Step(d, runs[0].0, runs[0].1), runs[1..], end)
  }

  // --------------------------------------------------------------- the invariant

  /** The rows no object of the vault can restore. */
  function Missing(objects: set<Digest>, rows: seq<ImageRow>): nat {
    if rows == [] then 0 else (if InVault(objects, rows[0]) then 0 else 1) + Missing(objects, rows[1..])
  }

  /** No backup misses more than its own run reported. */
  ghost predicate Kept(d: Directory) {
    forall name :: name in d.reported ==>
      name in d.backups && (Parse(name).Some? ==> Missing(d.objects, d.backups[name]) <= d.reported[name])
  }

  lemma {:induction false} MissingShrinks(objects: set<Digest>, more: set<Digest>, rows: seq<ImageRow>)
    requires forall i :: 0 <= i < |rows| && InVault(objects, rows[i]) ==> InVault(more, rows[i])
    ensures Missing(more, rows) <= Missing(objects, rows)
  {
    if rows != [] {
      MissingShrinks(objects, more, rows[1..]);
    }
  }

  /** An effect that takes nothing a listed backup needs. */
  ghost predicate Harmless(d: Directory, e: Effect) {
    e.Collect? ==> e.digest !in Retained(d.backups)
  }

  ghost predicate AllHarmless(d: Directory, es: seq<Effect>)
    decreases es
  {
    es == [] || (Harmless(d, es[0]) && AllHarmless(Apply(d, es[0]), es[1..]))
  }

  lemma ApplyKeeps(d: Directory, e: Effect)
    requires Kept(d) && Harmless(d, e)
    ensures Kept(Apply(d, e))
  {
    var next := Apply(d, e);
    forall name | name in next.reported
      ensures name in next.backups
          && (Parse(name).Some? ==> Missing(next.objects, next.backups[name]) <= next.reported[name])
    {
      assert next.backups[name] == d.backups[name] && next.reported[name] == d.reported[name];
      if Parse(name).Some? {
        ApplyKeepsRows(d, e, name);
      }
    }
  }

  lemma ApplyKeepsRows(d: Directory, e: Effect, name: string)
    requires Harmless(d, e) && name in d.backups && Parse(name).Some?
    ensures Missing(Apply(d, e).objects, d.backups[name]) <= Missing(d.objects, d.backups[name])
  {
    var rows := d.backups[name];
    forall i | 0 <= i < |rows| && InVault(d.objects, rows[i]) ensures InVault(Apply(d, e).objects, rows[i]) {
      assert rows[i].sha.value in Retained(d.backups);
    }
    MissingShrinks(d.objects, Apply(d, e).objects, rows);
  }

  lemma {:induction false} ApplyAllKeeps(d: Directory, es: seq<Effect>)
    requires Kept(d) && AllHarmless(d, es)
    ensures Kept(ApplyAll(d, es))
    decreases es
  {
    if es != [] {
      ApplyKeeps(d, es[0]);
      ApplyAllKeeps(Apply(d, es[0]), es[1..]);
    }
  }

  lemma {:induction false} HarmlessPrefix(d: Directory, es: seq<Effect>, n: nat)
    requires AllHarmless(d, es) && n <= |es|
    ensures AllHarmless(d, es[..n])
    decreases es
  {
    if n > 0 {
      assert es[..n][0] == es[0] && es[..n][1..] == es[1..][..n - 1];
      HarmlessPrefix(Apply(d, es[0]), es[1..], n - 1);
    }
  }

  lemma {:induction false} HarmlessAppend(d: Directory, a: seq<Effect>, b: seq<Effect>)
    requires AllHarmless(d, a) && AllHarmless(ApplyAll(d, a), b)
    ensures AllHarmless(d, a + b) && ApplyAll(d, a + b) == ApplyAll(ApplyAll(d, a), b)
    decreases a
  {
    if a == [] {
      assert a + b == b;
    } else {
      assert (a + b)[0] == a[0] && (a + b)[1..] == a[1..] + b;
      HarmlessAppend(Apply(d, a[0]), a[1..], b);
    }
  }

  lemma {:induction false} NoCollectHarmless(d: Directory, es: seq<Effect>)
    requires forall i :: 0 <= i < |es| ==> !es[i].Collect?
    ensures AllHarmless(d, es)
    decreases es
  {
    if es != [] {
      NoCollectHarmless(Apply(d, es[0]), es[1..]);
    }
  }

  lemma {:induction false} CopyStores(objects: set<Digest>, images: Images, rows: seq<ImageRow>)
    ensures forall i :: 0 <= i < |CopyPlan(objects, images, rows)| ==> CopyPlan(objects, images, rows)[i].Store?
    decreases rows
  {
    if rows != [] {
      CopyStores(objects, images, rows[1..]);
      if rows[0].sha.Some? {
        CopyStores(objects + {rows[0].sha.value}, images, rows[1..]);
      }
    }
  }

  lemma {:induction false} UnlinksOnly(ps: seq<ParsedName>, target: string, stuck: set<string>)
    ensures forall i :: 0 <= i < |UnlinkPlan(ps, target, stuck)| ==>
              UnlinkPlan(ps, target, stuck)[i].Unlink? && UnlinkPlan(ps, target, stuck)[i].name != target
  {
    if ps != [] {
      UnlinksOnly(ps[1..], target, stuck);
    }
  }

  lemma FillHarmless(d: Directory, a: Attempt)
    ensures AllHarmless(d, FillPlan(d, a))
  {
    CopyStores(d.objects, a.images, a.live);
    UnlinksOnly(Deleted(ParsedOf(a.listing)), a.target, a.stuck);
    FillCollectsNothing(d, a);
    NoCollectHarmless(d, FillPlan(d, a));
  }

  lemma FillCollectsNothing(d: Directory, a: Attempt)
    ensures forall i :: 0 <= i < |FillPlan(d, a)| ==> !FillPlan(d, a)[i].Collect?
  {
    CopyStores(d.objects, a.images, a.live);
    UnlinksOnly(Deleted(ParsedOf(a.listing)), a.target, a.stuck);
    var copy, unlink := CopyPlan(d.objects, a.images, a.live),
      UnlinkPlan(Deleted(ParsedOf(a.listing)), a.target, a.stuck);
    NoneCollect([Write(a.target, a.live)], copy, unlink);
  }

  lemma NoneCollect(a: seq<Effect>, b: seq<Effect>, c: seq<Effect>)
    requires forall i :: 0 <= i < |a| ==> !a[i].Collect?
    requires forall i :: 0 <= i < |b| ==> !b[i].Collect?
    requires forall i :: 0 <= i < |c| ==> !c[i].Collect?
    ensures forall i :: 0 <= i < |a + b + c| ==> !(a + b + c)[i].Collect?
  {
  }

  lemma {:induction false} CollectHarmless(d: Directory, visited: seq<Digest>, keep: set<Digest>)
    requires Retained(d.backups) <= keep
    ensures AllHarmless(d, CollectPlan(visited, keep))
    ensures var t := ApplyAll(d, CollectPlan(visited, keep));
            t.backups == d.backups && t.reported == d.reported && d.objects * keep <= t.objects <= d.objects
    decreases visited
  {
    if visited != [] {
      var rest := CollectPlan(visited[1..], keep);
      if visited[0] in keep {
        assert CollectPlan(visited, keep) == rest;
        CollectHarmless(d, visited[1..], keep);
      } else {
        assert CollectPlan(visited, keep)[1..] == rest;
        CollectHarmless(Apply(d, Collect(visited[0])), visited[1..], keep);
      }
    }
  }

  lemma PlanHarmless(d: Directory, a: Attempt)
    ensures AllHarmless(d, Plan(d, a))
  {
    if !a.verifies {
      NoCollectHarmless(d, Plan(d, a));
    } else {
      FillHarmless(d, a);
      var filled := ApplyAll(d, FillPlan(d, a));
      if a.visited.Some? {
        var keep := Digests(a.live) + Retained(filled.backups);
        CollectHarmless(filled, a.visited.value, keep);
        HarmlessAppend(d, FillPlan(d, a), CollectPlan(a.visited.value, keep));
      } else {
        assert FillPlan(d, a) + [] == FillPlan(d, a);
      }
    }
  }

  // ---------------------------------------------------- what a finished run reports

  lemma {:induction false} StoresApply(d: Directory, es: seq<Effect>)
    requires forall i :: 0 <= i < |es| ==> es[i].Store?
    ensures var t := ApplyAll(d, es); t.backups == d.backups && t.reported == d.reported && d.objects <= t.objects
    decreases es
  {
    if es != [] {
      StoresApply(Apply(d, es[0]), es[1..]);
    }
  }

  /** Copying leaves at most the rows missing that it counts. */
  lemma {:induction false} CopyReports(d: Directory, images: Images, rows: seq<ImageRow>)
    ensures Missing(ApplyAll(d, CopyPlan(d.objects, images, rows)).objects, rows)
        <= CopyMissing(d.objects, images, rows)
    decreases rows
  {
    if rows != [] {
      var plan := CopyPlan(d.objects, images, rows);
      CopyStores(d.objects, images, rows);
      StoresApply(d, plan);
      if !InVault(d.objects, rows[0]) && SourceMatches(images, rows[0]) {
        var stored := Apply(d, Store(rows[0].sha.value));
        assert plan[1..] == CopyPlan(stored.objects, images, rows[1..]);
        CopyStores(stored.objects, images, rows[1..]);
        StoresApply(stored, plan[1..]);
        CopyReports(stored, images, rows[1..]);
      } else {
        CopyReports(d, images, rows[1..]);
      }
    }
  }

  lemma {:induction false} UnlinksApply(d: Directory, es: seq<Effect>, target: string)
    requires forall i :: 0 <= i < |es| ==> es[i].Unlink? && es[i].name != target
    ensures var t := ApplyAll(d, es);
            t.objects == d.objects
              && (target in d.backups ==> target in t.backups && t.backups[target] == d.backups[target])
    decreases es
  {
    if es != [] {
      UnlinksApply(Apply(d, es[0]), es[1..], target);
    }
  }

  lemma {:induction false} ApplyAppend(d: Directory, a: seq<Effect>, b: seq<Effect>)
    ensures ApplyAll(d, a + b) == ApplyAll(ApplyAll(d, a), b)
    decreases a
  {
    if a == [] {
      assert a + b == b;
    } else {
      assert (a + b)[0] == a[0] && (a + b)[1..] == a[1..] + b;
      ApplyAppend(Apply(d, a[0]), a[1..], b);
    }
  }

  lemma FilledReports(d: Directory, a: Attempt)
    ensures var filled := ApplyAll(d, FillPlan(d, a));
            && a.target in filled.backups && filled.backups[a.target] == a.live
            && Missing(filled.objects, a.live) <= CopyMissing(d.objects, a.images, a.live)
  {
    var copy, unlink := CopyPlan(d.objects, a.images, a.live),
      UnlinkPlan(Deleted(ParsedOf(a.listing)), a.target, a.stuck);
    var written := Apply(d, Write(a.target, a.live));
    ApplyAppend(d, [Write(a.target, a.live)] + copy, unlink);
    ApplyAppend(d, [Write(a.target, a.live)], copy);
    assert [Write(a.target, a.live)][1..] == [];
    CopyStores(d.objects, a.images, a.live);
    StoresApply(written, copy);
    CopyReports(written, a.images, a.live);
    UnlinksOnly(Deleted(ParsedOf(a.listing)), a.target, a.stuck);
    UnlinksApply(ApplyAll(written, copy), unlink, a.target);
  }

  lemma DoneReports(d: Directory, a: Attempt)
    requires a.verifies
    ensures var done := ApplyAll(d, Plan(d, a));
            && a.target in done.backups && done.backups[a.target] == a.live
            && Missing(done.objects, a.live) <= CopyMissing(d.objects, a.images, a.live)
  {
    FilledReports(d, a);
    var filled := ApplyAll(d, FillPlan(d, a));
    if a.visited.None? {
      assert FillPlan(d, a) + [] == FillPlan(d, a);
    } else {
      var keep := Digests(a.live) + Retained(filled.backups);
      var collect := CollectPlan(a.visited.value, keep);
      ApplyAppend(d, FillPlan(d, a), collect);
      CollectHarmless(filled, a.visited.value, keep);
      var done := ApplyAll(filled, collect);
      forall i | 0 <= i < |a.live| && InVault(filled.objects, a.live[i]) ensures InVault(done.objects, a.live[i]) {
        assert a.live[i].sha.value in Digests(a.live);
      }
      MissingShrinks(filled.objects, done.objects, a.live);
    }
  }

  lemma StepKeeps(d: Directory, a: Attempt, crashAfter: Option<nat>)
    requires Kept(d) && a.target !in d.backups
    ensures Kept(Step(d, a, crashAfter))
  {
    var plan := Plan(d, a);
    PlanHarmless(d, a);
    if crashAfter.Some? && crashAfter.value < |plan| {
      HarmlessPrefix(d, plan, crashAfter.value);
      ApplyAllKeeps(d, plan[..crashAfter.value]);
    } else {
      ApplyAllKeeps(d, plan);
      if a.verifies {
        DoneReports(d, a);
      }
    }
  }

  lemma {:induction false} RunsKeep(d: Directory, runs: seq<(Attempt, Option<nat>)>, end: Directory)
    requires Kept(d) && Reachable(d, runs, end)
    ensures Kept(end)
    decreases runs
  {
    if runs != [] {
      StepKeeps(d, runs[0].0, runs[0].1);
      RunsKeep(Step(d, runs[0].0, runs[0].1), runs[1..], end);
    }
  }

  // ------------------------------------------------- what copying stores and counts

  /** The digests of the image files that still have their recorded content. */
  function Matching(images: Images, rows: seq<ImageRow>): set<Digest> {
    set i | 0 <= i < |rows| && SourceMatches(images, rows[i]) :: rows[i].sha.value
  }

  /** The image of a row is in the vault already, or its file or that of an earlier row has its content. */
  predicate Found(objects: set<Digest>, images: Images, rows: seq<ImageRow>, i: nat)
    requires i < |rows|
  {
    || (rows[i].sha.Some? && rows[i].sha.value in objects)
    || exists j :: 0 <= j <= i && SourceMatches(images, rows[j]) && rows[j].sha == rows[i].sha
  }

  /** How many of the first `n` rows are found nowhere. */
  function Unfound(objects: set<Digest>, images: Images, rows: seq<ImageRow>, n: nat): nat
    requires n <= |rows|
  {
    if n == 0 then 0
    else Unfound(objects, images, rows, n - 1) + if Found(objects, images, rows, n - 1) then 0 else 1
  }

  lemma MatchingNext(images: Images, rows: seq<ImageRow>, n: nat)
    requires n < |rows|
    ensures Matching(images, rows[..n + 1])
         == Matching(images, rows[..n]) + if SourceMatches(images, rows[n]) then {rows[n].sha.value} else {}
  {
    var more, less := rows[..n + 1], rows[..n];
    assert more[n] == rows[n];
    assert forall i :: 0 <= i < n ==> less[i] == more[i];
    forall x | x in Matching(images, less) ensures x in Matching(images, more) {
      var i :| 0 <= i < |less| && SourceMatches(images, less[i]) && less[i].sha.value == x;
      assert more[i] == less[i];
    }
  }

  lemma StoredNext(objects: set<Digest>, images: Images, rows: seq<ImageRow>, n: nat)
    requires n < |rows|
    ensures var seen := Matching(images, rows[..n]);
            |Matching(images, rows[..n + 1]) - objects|
            == |seen - objects| + if SourceMatches(images, rows[n]) && !InVault(objects + seen, rows[n]) then 1 else 0
  {
    var seen := Matching(images, rows[..n]);
    MatchingNext(images, rows, n);
    if SourceMatches(images, rows[n]) {
      var x := rows[n].sha.value;
      if x in objects + seen {
        assert seen + {x} - objects == seen - objects;
      } else {
        assert seen + {x} - objects == (seen - objects) + {x};
      }
    } else {
      assert seen + {} == seen;
    }
  }

  /** A row is found when its digest is in the vault or among the files read up to it. */
  lemma FoundExactly(objects: set<Digest>, images: Images, rows: seq<ImageRow>, n: nat)
    requires n < |rows|
    ensures Found(objects, images, rows, n)
        <==> InVault(objects + Matching(images, rows[..n]), rows[n]) || SourceMatches(images, rows[n])
  {
    var seen := rows[..n];
    assert forall j :: 0 <= j < n ==> seen[j] == rows[j];
    if rows[n].sha.Some? && rows[n].sha.value in Matching(images, seen) {
      var j :| 0 <= j < |seen| && SourceMatches(images, seen[j]) && seen[j].sha.value == rows[n].sha.value;
      assert SourceMatches(images, rows[j]) && rows[j].sha == rows[n].sha;
    }
    if j :| 0 <= j <= n && SourceMatches(images, rows[j]) && rows[j].sha == rows[n].sha {
      if j < n {
        assert seen[j].sha.value in Matching(images, seen);
      }
    }
  }

  /** The rows that copying counts as missing are those found nowhere at their turn. */
  lemma {:induction false} CopyCounts(objects: set<Digest>, images: Images, rows: seq<ImageRow>, n: nat)
    requires n <= |rows|
    ensures CopyMissing(objects + Matching(images, rows[..n]), images, rows[n..]) + Unfound(objects, images, rows, n)
         == Unfound(objects, images, rows, |rows|)
    decreases |rows| - n
  {
    if n == |rows| {
      assert rows[n..] == [];
    } else {
      var seen := objects + Matching(images, rows[..n]);
      var next := seen + if SourceMatches(images, rows[n]) then {rows[n].sha.value} else {};
      MatchingNext(images, rows, n);
      FoundExactly(objects, images, rows, n);
      CopyCounts(objects, images, rows, n + 1);
      assert objects + Matching(images, rows[..n + 1]) == next;
      assert rows[n..][1..] == rows[n + 1..] && rows[n..][0] == rows[n];
      CountedNext(seen, images, rows[n..]);
      if InVault(seen, rows[n]) {
        assert next == seen;
      }
    }
  }

  /** What one row adds to the vault and to the counts. */
  lemma CopyNext(objects: set<Digest>, images: Images, rows: seq<ImageRow>, n: nat)
    requires n < |rows|
    ensures var old_, new_ := Matching(images, rows[..n]), Matching(images, rows[..n + 1]);
            var present, matches := InVault(objects + old_, rows[n]), SourceMatches(images, rows[n]);
            && (present || !matches ==> objects + new_ == objects + old_ && |new_ - objects| == |old_ - objects|)
            && (!present && matches ==>
                  objects + new_ == objects + old_ + {rows[n].sha.value} && |new_ - objects| == |old_ - objects| + 1)
            && Unfound(objects, images, rows, n + 1)
               == Unfound(objects, images, rows, n) + if present || matches then 0 else 1
  {
    MatchingNext(images, rows, n);
    FoundExactly(objects, images, rows, n);
    StoredNext(objects, images, rows, n);
  }

  lemma CountedNext(seen: set<Digest>, images: Images, rows: seq<ImageRow>)
    requires rows != []
    ensures var next := seen + if SourceMatches(images, rows[0]) then {rows[0].sha.value} else {};
            CopyMissing(seen, images, rows)
            == CopyMissing(next, images, rows[1..])
               + if InVault(seen, rows[0]) || SourceMatches(images, rows[0]) then 0 else 1
  {
    if InVault(seen, rows[0]) && SourceMatches(images, rows[0]) {
      assert seen + {rows[0].sha.value} == seen;
    } else if !SourceMatches(images, rows[0]) {
      assert seen + {} == seen;
    }
  }

  /** Copying stores exactly the digests of the files that match. */
  lemma {:induction false} CopyStoresExactly(d: Directory, images: Images, rows: seq<ImageRow>, n: nat)
    requires n <= |rows|
    ensures var seen := d.objects + Matching(images, rows[..n]);
            ApplyAll(d.(objects := seen), CopyPlan(seen, images, rows[n..]))
            == d.(objects := d.objects + Matching(images, rows))
    decreases |rows| - n
  {
    if n == |rows| {
      assert rows[..n] == rows && rows[n..] == [];
    } else {
      var seen := d.objects + Matching(images, rows[..n]);
      MatchingNext(images, rows, n);
      CopyStoresExactly(d, images, rows, n + 1);
      assert rows[n..][1..] == rows[n + 1..] && rows[n..][0] == rows[n];
      var next := seen + if SourceMatches(images, rows[n]) then {rows[n].sha.value} else {};
      assert d.objects + Matching(images, rows[..n + 1]) == next;
      if !InVault(seen, rows[n]) && SourceMatches(images, rows[n]) {
        assert CopyPlan(seen, images, rows[n..])
          == [Store(rows[n].sha.value)] + CopyPlan(next, images, rows[n + 1..]);
      } else {
        assert next == seen;
      }
    }
  }

  /** What the copying of a whole snapshot stores and counts. */
  lemma CopiedExactly(d: Directory, images: Images, rows: seq<ImageRow>)
    ensures ApplyAll(d, CopyPlan(d.objects, images, rows)) == d.(objects := d.objects + Matching(images, rows))
    ensures CopyMissing(d.objects, images, rows) == Unfound(d.objects, images, rows, |rows|)
  {
    assert rows[..0] == [] && rows[0..] == rows;
    assert d.objects + Matching(images, rows[..0]) == d.objects;
    CopyCounts(d.objects, images, rows, 0);
    CopyStoresExactly(d, images, rows, 0);
  }

  // ------------------------------------------------------ what a finished run leaves

  lemma LessOne(m: map<string, seq<ImageRow>>, x: string, rest: set<string>, spared: set<string>)
    ensures x in spared ==> {x} + rest - spared == rest - spared
    ensures x !in spared ==> m - {x} - (rest - spared) == m - ({x} + rest - spared)
  {
  }

  lemma {:induction false} UnlinksLeave(d: Directory, ps: seq<ParsedName>, target: string, stuck: set<string>)
    ensures var t := ApplyAll(d, UnlinkPlan(ps, target, stuck));
            && t.backups == d.backups - (FileNames(ps) - ({target} + stuck))
            && t.objects == d.objects
    decreases ps
  {
    if ps != [] {
      var rest := UnlinkPlan(ps[1..], target, stuck);
      assert ps == [ps[0]] + ps[1..];
      assert FileNames(ps) == {ps[0].filename} + FileNames(ps[1..]);
      LessOne(d.backups, ps[0].filename, FileNames(ps[1..]), {target} + stuck);
      if ps[0].filename == target || ps[0].filename in stuck {
        assert UnlinkPlan(ps, target, stuck) == rest;
        UnlinksLeave(d, ps[1..], target, stuck);
      } else {
        assert UnlinkPlan(ps, target, stuck)[1..] == rest;
        UnlinksLeave(Apply(d, Unlink(ps[0].filename)), ps[1..], target, stuck);
      }
    }
  }

  lemma {:induction false} CollectsExactly(d: Directory, visited: seq<Digest>, keep: set<Digest>)
    ensures var t := ApplyAll(d, CollectPlan(visited, keep));
            t.backups == d.backups && forall o :: o in t.objects <==> o in d.objects && (o in keep || o !in visited)
    decreases visited
  {
    if visited != [] {
      var rest := CollectPlan(visited[1..], keep);
      assert visited == [visited[0]] + visited[1..];
      if visited[0] in keep {
        assert CollectPlan(visited, keep) == rest;
        CollectsExactly(d, visited[1..], keep);
      } else {
        assert CollectPlan(visited, keep)[1..] == rest;
        CollectsExactly(Apply(d, Collect(visited[0])), visited[1..], keep);
      }
    }
  }

  /** The listing shows the directory's backups and the new one. */
  ghost predicate Lists(d: Directory, a: Attempt) {
    DistinctNames(a.listing) && forall n :: n in a.listing <==> n in d.backups || n == a.target
  }

  /** The directory right before the collection. */
  lemma FilledExactly(d: Directory, a: Attempt)
    ensures var filled := ApplyAll(d, FillPlan(d, a));
            && filled.backups == d.backups[a.target := a.live]
                                 - (FileNames(Deleted(ParsedOf(a.listing))) - ({a.target} + a.stuck))
            && filled.objects == d.objects + Matching(a.images, a.live)
  {
    var copy, deleted := CopyPlan(d.objects, a.images, a.live), Deleted(ParsedOf(a.listing));
    var written := Apply(d, Write(a.target, a.live));
    ApplyAppend(d, [Write(a.target, a.live)] + copy, UnlinkPlan(deleted, a.target, a.stuck));
    ApplyAppend(d, [Write(a.target, a.live)], copy);
    assert [Write(a.target, a.live)][1..] == [];
    CopiedExactly(written, a.images, a.live);
    UnlinksLeave(ApplyAll(written, copy), deleted, a.target, a.stuck);
  }

  lemma FilledRotates(d: Directory, a: Attempt)
    requires Lists(d, a)
    ensures ApplyAll(d, FillPlan(d, a)).backups.Keys
         == Rotated(a.listing, a.target) + (set n | n in a.listing && n in a.stuck)
  {
    FilledExactly(d, a);
    RotatedNames(d.backups.Keys, a);
  }

  lemma RotatedName(names: set<string>, a: Attempt, gone: set<string>, n: string)
    requires n in a.listing <==> n in names || n == a.target
    requires gone == FileNames(Deleted(ParsedOf(a.listing)))
    ensures n in names + {a.target} - (gone - ({a.target} + a.stuck)) <==>
              n in Rotated(a.listing, a.target) || (n in a.listing && n in a.stuck)
  {
    if n in a.listing {
      DeletedNames(a.listing, n);
    }
  }

  lemma RotatedNames(names: set<string>, a: Attempt)
    requires forall n :: n in a.listing <==> n in names || n == a.target
    ensures names + {a.target} - (FileNames(Deleted(ParsedOf(a.listing))) - ({a.target} + a.stuck))
         == Rotated(a.listing, a.target) + (set n | n in a.listing && n in a.stuck)
  {
    var gone := FileNames(Deleted(ParsedOf(a.listing)));
    var left := names + {a.target} - (gone - ({a.target} + a.stuck));
    var stuck := set n | n in a.listing && n in a.stuck;
    forall n ensures n in left <==> n in Rotated(a.listing, a.target) + stuck {
      RotatedName(names, a, gone, n);
    }
    SameMembers(left, Rotated(a.listing, a.target) + stuck);
  }

  lemma SameMembers(a: set<string>, b: set<string>)
    requires forall n :: n in a <==> n in b
    ensures a == b
  {
  }

  lemma DeletedNames(listing: seq<string>, n: string)
    requires n in listing
    ensures var deleted := Deleted(ParsedOf(listing));
            n in FileNames(deleted) <==> Parse(n).Some? && Parse(n).value in deleted
  {
    var deleted := Deleted(ParsedOf(listing));
    ParsedFilename(n);
    if n in FileNames(deleted) {
      var p :| p in deleted && p.filename == n;
      DeletedIs(ParsedOf(listing), p);
    }
  }

  /**
   * A finished run leaves exactly the rotated directory and what it could not unlink, the new
   * backup with the live rows and the others as they were; of the old and copied objects exactly
   * those are gone that the collection visited and neither a remaining backup nor the live store
   * refers to.
   */
  lemma FinishedRun(d: Directory, a: Attempt)
    requires a.target !in d.backups && a.verifies && Lists(d, a)
    ensures var t := Step(d, a, None); var stored := d.objects + Matching(a.images, a.live);
            && t.backups.Keys == Rotated(a.listing, a.target) + (set n | n in a.listing && n in a.stuck)
            && (forall n :: n in t.backups ==>
                  if n == a.target then t.backups[n] == a.live else n in d.backups && t.backups[n] == d.backups[n])
            && (forall o :: o in t.objects <==>
                  && o in stored
                  && (a.visited.None? || o !in a.visited.value || o in Digests(a.live) || o in Retained(t.backups)))
  {
    FilledRotates(d, a);
    FilledExactly(d, a);
    var filled := ApplyAll(d, FillPlan(d, a));
    if a.visited.None? {
      assert FillPlan(d, a) + [] == FillPlan(d, a);
    } else {
      var keep := Digests(a.live) + Retained(filled.backups);
      ApplyAppend(d, FillPlan(d, a), CollectPlan(a.visited.value, keep));
      CollectsExactly(filled, a.visited.value, keep);
    }
  }

  /** A snapshot that does not verify leaves the directory as it was. */
  lemma DiscardedRun(d: Directory, a: Attempt)
    requires a.target !in d.backups && a.target !in d.reported && !a.verifies
    ensures Step(d, a, None) == d
  {
    var written := Apply(d, Write(a.target, a.live));
    assert Plan(d, a)[1..] == [Unlink(a.target)] && [Unlink(a.target)][1..] == [];
    assert written.backups - {a.target} == d.backups && written.reported - {a.target} == d.reported;
    assert ApplyAll(written, [Unlink(a.target)]) == Apply(written, Unlink(a.target));
  }

  lemma CollectedKeeps(d: Directory, a: Attempt)
    requires a.target !in d.backups && a.verifies
    ensures var t := Step(d, a, None); var stored := d.objects + Matching(a.images, a.live);
            && t.objects <= stored && stored * Digests(a.live) <= t.objects
            && a.target in t.backups && t.backups[a.target] == a.live
            && t.reported[a.target] == Unfound(d.objects, a.images, a.live, |a.live|)
  {
    FilledExactly(d, a);
    CopiedExactly(d, a.images, a.live);
    var filled := ApplyAll(d, FillPlan(d, a));
    if a.visited.None? {
      assert FillPlan(d, a) + [] == FillPlan(d, a);
    } else {
      var keep := Digests(a.live) + Retained(filled.backups);
      ApplyAppend(d, FillPlan(d, a), CollectPlan(a.visited.value, keep));
      CollectsExactly(filled, a.visited.value, keep);
    }
  }

  /**
   * After a finished run an image of the live table is in the vault exactly when it was there before
   * or some file still had its content, and the run reports exactly the rows that are not found: their
   * file does not match, and their digest was neither in the vault nor that of an earlier file.
   */
  lemma BackupSaves(d: Directory, a: Attempt)
    requires a.target !in d.backups && a.verifies
    ensures var t := Step(d, a, None);
            && a.target in t.backups && t.backups[a.target] == a.live
            && t.reported[a.target] == Unfound(d.objects, a.images, a.live, |a.live|)
            && (forall i :: 0 <= i < |a.live| ==>
                  (InVault(t.objects, a.live[i]) <==>
                     InVault(d.objects, a.live[i])
                     || exists j :: 0 <= j < |a.live| && SourceMatches(a.images, a.live[j])
                                    && a.live[j].sha == a.live[i].sha))
  {
    CollectedKeeps(d, a);
    var t := Step(d, a, None);
    forall i | 0 <= i < |a.live|
      ensures InVault(t.objects, a.live[i]) <==>
                InVault(d.objects, a.live[i])
                || exists j :: 0 <= j < |a.live| && SourceMatches(a.images, a.live[j]) && a.live[j].sha == a.live[i].sha
    {
      SavedRow(d, a, t.objects, i);
    }
  }

  lemma SavedRow(d: Directory, a: Attempt, objects: set<Digest>, i: nat)
    requires i < |a.live|
    requires objects <= d.objects + Matching(a.images, a.live)
    requires (d.objects + Matching(a.images, a.live)) * Digests(a.live) <= objects
    ensures InVault(objects, a.live[i]) <==>
              InVault(d.objects, a.live[i])
              || exists j :: 0 <= j < |a.live| && SourceMatches(a.images, a.live[j]) && a.live[j].sha == a.live[i].sha
  {
    if a.live[i].sha.Some? {
      var x := a.live[i].sha.value;
      assert x in Digests(a.live);
      if x in Matching(a.images, a.live) {
        var j :| 0 <= j < |a.live| && SourceMatches(a.images, a.live[j]) && a.live[j].sha.value == x;
        assert a.live[j].sha == a.live[i].sha;
      }
    }
  }

  // ------------------------------------------------------------------- restoring

  /** The paths of the image table are unique. */
  predicate DistinctPaths(rows: seq<ImageRow>) {
    forall i, j :: 0 <= i < j < |rows| ==> rows[i].path != rows[j].path
  }

  predicate SafePaths(rows: seq<ImageRow>) {
    forall i :: 0 <= i < |rows| ==> rows[i].path.Within?
  }

  /** The vault can bring the image of a row back. */
  predicate Restorable(objects: set<Digest>, row: ImageRow) {
    InVault(objects, row) && row.path.Within?
  }

  function Lost(objects: set<Digest>, rows: seq<ImageRow>): nat {
    if rows == [] then 0
    else Lost(objects, rows[..|rows| - 1]) + if Restorable(objects, rows[|rows| - 1]) then 0 else 1
  }

  /** The images after restoring the first `n` rows onto `before`. */
  ghost predicate RestoredTo(rows: seq<ImageRow>, objects: set<Digest>, before: Images, n: nat, images: Images)
    requires n <= |rows|
  {
    && (forall p :: p in before ==> p in images)
    && (forall i :: 0 <= i < n && Restorable(objects, rows[i]) ==> SourceMatches(images, rows[i]))
    && (forall i :: 0 <= i < |rows| && SourceMatches(before, rows[i]) ==> SourceMatches(images, rows[i]))
    && (forall i :: n <= i < |rows| && SourceMatches(images, rows[i]) ==> SourceMatches(before, rows[i]))
    && (forall p :: p in images && (p in before ==> images[p] != before[p]) ==>
          exists i :: 0 <= i < n && rows[i].path == Within(p) && rows[i].sha == Some(images[p]))
  }

  lemma RestoreNext(rows: seq<ImageRow>, objects: set<Digest>, before: Images, n: nat, images: Images)
    requires DistinctPaths(rows) && n < |rows| && RestoredTo(rows, objects, before, n, images)
    ensures SourceMatches(images, rows[n]) || !Restorable(objects, rows[n]) ==>
        RestoredTo(rows, objects, before, n + 1, images)
    ensures !SourceMatches(images, rows[n]) && Restorable(objects, rows[n]) ==>
              RestoredTo(rows, objects, before, n + 1, images[rows[n].path.id := rows[n].sha.value])
  {
    if !SourceMatches(images, rows[n]) && Restorable(objects, rows[n]) {
      var after := images[rows[n].path.id := rows[n].sha.value];
      forall i | 0 <= i < |rows| && i != n ensures SourceMatches(after, rows[i]) <==> SourceMatches(images, rows[i]) {
        assert rows[i].path != rows[n].path by { assert i < n || n < i; }
      }
    }
  }

  /** The rows whose file does not have their content, split by whether the vault can bring it back. */
  function Absent(objects: set<Digest>, before: Images, rows: seq<ImageRow>, restorable: bool): nat {
    if rows == [] then 0
    else
      var last := rows[|rows| - 1];
      Absent(objects, before, rows[..|rows| - 1], restorable)
      + if !SourceMatches(before, last) && Restorable(objects, last) == restorable then 1 else 0
  }

  lemma AbsentNext(rows: seq<ImageRow>, objects: set<Digest>, before: Images, n: nat, images: Images)
    requires n < |rows| && RestoredTo(rows, objects, before, n, images)
    ensures var needed := !SourceMatches(images, rows[n]);
            && Absent(objects, before, rows[..n + 1], true)
               == Absent(objects, before, rows[..n], true) + (if needed && Restorable(objects, rows[n]) then 1 else 0)
            && Absent(objects, before, rows[..n + 1], false)
               == Absent(objects, before, rows[..n], false) + (if needed && !Restorable(objects, rows[n]) then 1 else 0)
    ensures Lost(objects, rows[..n + 1])
         == Lost(objects, rows[..n]) + if Restorable(objects, rows[n]) then 0 else 1
  {
    assert rows[..n + 1][..n] == rows[..n] && rows[..n + 1][n] == rows[n];
  }

  /** `restoreImagesFromVault` on the rows of a snapshot. */
  method RestoreImages(rows: seq<ImageRow>, objects: set<Digest>, before: Images)
      returns (images: Images, restored: nat, missing: nat)
    requires DistinctPaths(rows)
    ensures missing <= Lost(objects, rows)
    ensures restored + missing <= |rows|
    ensures restored == Absent(objects, before, rows, true) && missing == Absent(objects, before, rows, false)
    ensures RestoredTo(rows, objects, before, |rows|, images)
  {
    images, restored, missing := before, 0, 0;
    for n := 0 to |rows|
      invariant missing <= Lost(objects, rows[..n]) && restored + missing <= n
      invariant restored == Absent(objects, before, rows[..n], true)
      invariant missing == Absent(objects, before, rows[..n], false)
      invariant RestoredTo(rows, objects, before, n, images)
    {
      AbsentNext(rows, objects, before, n, images);
      RestoreNext(rows, objects, before, n, images);
      var row := rows[n];
      if row.sha.None? || row.path.Escaping? {
        missing := missing + 1;
      } else if SourceMatches(images, row) {
      } else if row.sha.value !in objects {
        missing := missing + 1;
      } else {
        images := images[row.path.id := row.sha.value];
        restored := restored + 1;
      }
    }
    assert rows[..|rows|] == rows;
  }

  lemma {:induction false} MissingLast(objects: set<Digest>, rows: seq<ImageRow>)
    requires rows != []
    ensures Missing(objects, rows)
        == Missing(objects, rows[..|rows| - 1]) + if InVault(objects, rows[|rows| - 1]) then 0 else 1
  {
    if |rows| > 1 {
      assert rows[1..][..|rows| - 2] == rows[..|rows| - 1][1..];
      MissingLast(objects, rows[1..]);
    } else {
      assert rows[1..] == [] && rows[..0] == [];
    }
  }

  lemma {:induction false} LostIsMissing(objects: set<Digest>, rows: seq<ImageRow>)
    requires SafePaths(rows)
    ensures Lost(objects, rows) == Missing(objects, rows)
  {
    if rows != [] {
      LostIsMissing(objects, rows[..|rows| - 1]);
      MissingLast(objects, rows);
    }
  }

  /**
   * After any sequence of backup runs, complete or cut short, a backup whose run reported can be
   * restored but for as many images as that run reported missing.
   */
  lemma VaultRetention(runs: seq<(Attempt, Option<nat>)>, end: Directory, name: string)
    requires Reachable(Directory(map[], {}, map[]), runs, end)
    requires name in end.reported && Parse(name).Some?
    ensures name in end.backups
    ensures SafePaths(end.backups[name]) ==> Lost(end.objects, end.backups[name]) <= end.reported[name]
  {
    RunsKeep(Directory(map[], {}, map[]), runs, end);
    if SafePaths(end.backups[name]) {
      LostIsMissing(end.objects, end.backups[name]);
    }
  }
}
