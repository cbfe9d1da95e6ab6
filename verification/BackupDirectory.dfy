/** The backup directory as the program changes it, file by file; each method is tied to its effects. */
module BackupDirectory {
  import opened Common
  import opened BackupNames
  import opened BackupRotation
  import opened Vault

  class Backups {
    var backups: map<string, seq<ImageRow>>
    var objects: set<Digest>
    ghost var reported: map<string, nat>

    ghost function View(): Directory
      reads this
    {
      Directory(backups, objects, reported)
    }

    constructor ()
      ensures View() == Directory(map[], {}, map[])
    {
      backups, objects, reported := map[], {}, map[];
    }

    /** `copySnapshotImages`. */
    method CopySnapshotImages(images: Images, rows: seq<ImageRow>) returns (copied: nat, missing: nat)
      modifies this`objects
      ensures View() == ApplyAll(old(View()), CopyPlan(old(objects), images, rows))
      ensures missing == CopyMissing(old(objects), images, rows)
      ensures objects == old(objects) + Matching(images, rows)
      ensures copied == |Matching(images, rows) - old(objects)|
      ensures missing == Unfound(old(objects), images, rows, |rows|)
      ensures copied + missing <= |rows|
    {
      copied, missing := 0, 0;
      ghost var start := View();
      for n := 0 to |rows|
        invariant objects == start.objects + Matching(images, rows[..n])
        invariant copied == |Matching(images, rows[..n]) - start.objects|
        invariant missing == Unfound(start.objects, images, rows, n)
        invariant copied + missing <= n
      {
        CopyNext(start.objects, images, rows, n);
        var row := rows[n];
        if !InVault(objects, row) {
          if SourceMatches(images, row) {
            objects := objects + {row.sha.value};
            copied := copied + 1;
          } else {
            missing := missing + 1;
          }
        }
      }
      assert rows[..|rows|] == rows;
      CopiedExactly(start, images, rows);
    }

    /** The unlink loop over the backups selected for deletion. */
    method UnlinkBackups(deletions: seq<ParsedName>, target: string, stuck: set<string>)
      modifies this`backups, this`reported
      ensures View() == ApplyAll(old(View()), UnlinkPlan(deletions, target, stuck))
    {
      ghost var start := View();
      assert deletions[0..] == deletions;
      for n := 0 to |deletions|
        invariant ApplyAll(View(), UnlinkPlan(deletions[n..], target, stuck))
            == ApplyAll(start, UnlinkPlan(deletions, target, stuck))
      {
        assert deletions[n..][1..] == deletions[n + 1..];
        var name := deletions[n].filename;
        ghost var plan := UnlinkPlan(deletions[n..], target, stuck);
        ghost var rest := UnlinkPlan(deletions[n + 1..], target, stuck);
        if name == target || name in stuck {
          assert plan == rest;
          continue;
        }
        assert plan[0] == Unlink(name) && plan[1..] == rest;
        backups := backups - {name};
        reported := reported - {name};
      }
    }

    /** `collectRetainedImageDigests`: every listed backup is opened and read. */
    method RetainedDigests() returns (digests: set<Digest>)
      ensures digests == Retained(backups)
    {
      digests := {};
      var names := backups.Keys;
      while names != {}
        invariant names <= backups.Keys
        invariant digests == Retained(backups - names)
        decreases names
      {
        var name :| name in names;
        RetainedNext(backups, names, name);
        if Parse(name).Some? {
          digests := digests + Digests(backups[name]);
        }
        names := names - {name};
      }
      assert backups - names == backups;
    }

    /** The deletion loop of `garbageCollectImageVault` over the vault objects it visits. */
    method CollectObjects(visited: seq<Digest>, keep: set<Digest>)
      modifies this`objects
      ensures View() == ApplyAll(old(View()), CollectPlan(visited, keep))
    {
      ghost var start := View();
      assert visited[0..] == visited;
      for n := 0 to |visited|
        invariant ApplyAll(View(), CollectPlan(visited[n..], keep)) == ApplyAll(start, CollectPlan(visited, keep))
      {
        assert visited[n..][1..] == visited[n + 1..];
        ghost var plan := CollectPlan(visited[n..], keep);
        ghost var rest := CollectPlan(visited[n + 1..], keep);
        if visited[n] in keep {
          assert plan == rest;
        } else {
          assert plan[0] == Collect(visited[n]) && plan[1..] == rest;
          objects := objects - {visited[n]};
        }
      }
    }

    /** `createBackup` up to the collection. */
    method FillBackup(a: Attempt) returns (copied: nat, missing: nat)
      modifies this
      ensures View() == ApplyAll(old(View()), FillPlan(old(View()), a))
      ensures copied == |Matching(a.images, a.live) - old(objects)|
      ensures missing == CopyMissing(old(objects), a.images, a.live)
    {
      ghost var start := View();
      ghost var write := [Write(a.target, a.live)];
      ghost var copy := CopyPlan(objects, a.images, a.live);
      var deletions := Deleted(ParsedOf(a.listing));
      ghost var unlink := UnlinkPlan(deletions, a.target, a.stuck);
      assert write[1..] == [];
      ApplyAppend(start, write + copy, unlink);
      ApplyAppend(start, write, copy);
      backups := backups[a.target := a.live];
      reported := reported - {a.target};
      copied, missing := CopySnapshotImages(a.images, a.live);
      UnlinkBackups(deletions, a.target, a.stuck);
    }

    /** A snapshot that does not verify is removed again. */
    method DiscardBackup(a: Attempt)
      requires !a.verifies
      modifies this
      ensures View() == ApplyAll(old(View()), Plan(old(View()), a))
    {
      TwoEffects(View(), Write(a.target, a.live), Unlink(a.target));
      backups := backups[a.target := a.live];
      reported := reported - {a.target};
      backups := backups - {a.target};
      reported := reported - {a.target};
    }

    /** Copying, rotating and collecting for a snapshot that verifies. */
    method KeepBackup(a: Attempt) returns (copied: nat, missing: nat)
      requires a.verifies
      modifies this
      ensures View() == ApplyAll(old(View()), Plan(old(View()), a))
      ensures copied == |Matching(a.images, a.live) - old(objects)|
      ensures missing == CopyMissing(old(objects), a.images, a.live)
    {
      ghost var start := View();
      copied, missing := FillBackup(a);
      if a.visited.Some? {
        var retained := RetainedDigests();
        var keep := Digests(a.live) + retained;
        ApplyAppend(start, FillPlan(start, a), CollectPlan(a.visited.value, keep));
        CollectObjects(a.visited.value, keep);
      } else {
        assert FillPlan(start, a) + [] == FillPlan(start, a);
      }
    }

    /** `createBackup` for a chosen name. */
    method RunBackup(a: Attempt) returns (copied: nat, missing: nat)
      requires a.target !in backups
      modifies this
      ensures View() == Step(old(View()), a, None)
      ensures a.verifies ==> copied == |Matching(a.images, a.live) - old(objects)|
      ensures a.verifies ==> missing == CopyMissing(old(objects), a.images, a.live)
    {
      if a.verifies {
        copied, missing := KeepBackup(a);
        reported := reported[a.target := missing];
      } else {
        DiscardBackup(a);
        copied, missing := 0, 0;
      }
    }

    /** `createBackup`: the first free name, then the run. */
    method CreateBackup(live: seq<ImageRow>, images: Images, kind: Kind, at: nat, version: nat, verifies: bool,
                        listing: seq<string>, stuck: set<string>, visited: Option<seq<Digest>>)
      returns (filename: string, copied: nat, missing: nat)
      modifies this
      ensures filename !in old(backups)
      ensures exists t ::
          at <= t && filename == Format(kind, t, version) && AllTaken(old(backups).Keys, kind, at, t, version)
      ensures View() == Step(old(View()), Attempt(live, images, filename, verifies, listing, stuck, visited), None)
      ensures verifies ==> copied == |Matching(images, live) - old(objects)|
      ensures verifies ==> missing == Unfound(old(objects), images, live, |live|)
      ensures verifies ==>
                forall i :: 0 <= i < |live| && (InVault(old(objects), live[i]) || SourceMatches(images, live[i])) ==>
                  InVault(objects, live[i])
    {
      ghost var start := View();
      var candidate;
      filename, candidate := UniqueTarget(backups.Keys, kind, at, version);
      var a := Attempt(live, images, filename, verifies, listing, stuck, visited);
      copied, missing := RunBackup(a);
      CopiedExactly(start, images, live);
      if verifies {
        BackupSaves(start, a);
      }
    }
  }

  lemma TwoEffects(d: Directory, a: Effect, b: Effect)
    ensures ApplyAll(d, [a, b]) == Apply(Apply(d, a), b)
  {
    assert [a, b][1..] == [b] && [b][1..] == [];
    assert ApplyAll(Apply(d, a), [b]) == Apply(Apply(d, a), b);
  }

  lemma RetainedNext(backups: map<string, seq<ImageRow>>, names: set<string>, name: string)
    requires name in names && names <= backups.Keys
    ensures Retained(backups - (names - {name}))
         == Retained(backups - names) + if Parse(name).Some? then Digests(backups[name]) else {}
  {
    var less, more := backups - names, backups - (names - {name});
    forall n | n in more ensures n == name || (n in less && less[n] == more[n]) {}
    assert forall n :: n in less ==> n in more && more[n] == less[n];
    forall x ensures x in Retained(more)
        <==> x in Retained(less) + if Parse(name).Some? then Digests(backups[name]) else {} {
      if x in Retained(more) {
        var n, i :| n in more && Parse(n).Some? && 0 <= i < |more[n]| && more[n][i].sha.Some?
          && more[n][i].sha.value == x;
        if n != name { assert less[n][i].sha.value == x; }
      }
      if x in Retained(less) {
        var n, i :| n in less && Parse(n).Some? && 0 <= i < |less[n]| && less[n][i].sha.Some?
          && less[n][i].sha.value == x;
        assert more[n][i].sha.value == x;
      }
      if Parse(name).Some? && x in Digests(backups[name]) {
        var i :| 0 <= i < |backups[name]| && backups[name][i].sha.Some? && backups[name][i].sha.value == x;
        assert name in more && more[name][i].sha.value == x;
      }
    }
  }
}
