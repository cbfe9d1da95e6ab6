/**
 * `runMigrations`: every migration after the stored version, each in a transaction of its own that
 * also advances the version. A run may fail or die at any migration and be repeated, possibly by a
 * later program with more migrations.
 */
module MigrationRunner {
  /** The stored version, and a log of the migrations that committed. */
  datatype Db = Db(version: nat, applied: seq<nat>)

  predicate Increasing(ms: seq<nat>) {
    (forall i :: 0 <= i < |ms| ==> ms[i] > 0) && forall i, j :: 0 <= i < j < |ms| ==> ms[i] < ms[j]
  }

  /** One run of a list of migrations, ended by the first one in `blocked` that it reaches. */
  datatype Attempt = Attempt(migrations: seq<nat>, blocked: set<nat>)

  function RunFrom(db: Db, ms: seq<nat>, current: nat, blocked: set<nat>): Db
    decreases ms
  {
    if ms == [] then db
    else if ms[0] <= current then RunFrom(db, ms[1..], current, blocked)
    else if ms[0] in blocked then db
    else RunFrom(Db(ms[0], db.applied + [ms[0]]), ms[1..], current, blocked)
  }

  function RunAll(db: Db, runs: seq<Attempt>): Db
    decreases runs
  {
    if runs == [] then db else RunAll(RunFrom(db, runs[0].migrations, db.version, runs[0].blocked), runs[1..])
  }

  class Database {
    var userVersion: nat
    var applied: seq<nat>

    function View(): Db
      reads this
    {
      Db(userVersion, applied)
    }

    constructor ()
      ensures View() == Db(0, [])
    {
      userVersion, applied := 0, [];
    }

    method RunMigrations(ms: seq<nat>, blocked: set<nat>) returns (ok: bool)
      modifies this
      ensures View() == RunFrom(old(View()), ms, old(userVersion), blocked)
      ensures ok <==> forall v :: v in ms && v > old(userVersion) ==> v !in blocked
    {
      var current := userVersion;
      assert ms[0..] == ms;
      for i := 0 to |ms|
        invariant RunFrom(View(), ms[i..], current, blocked) == RunFrom(old(View()), ms, current, blocked)
        invariant forall j :: 0 <= j < i && ms[j] > current ==> ms[j] !in blocked
      {
        assert ms[i..][1..] == ms[i + 1..];
        if ms[i] <= current {
          continue;
        }
        if ms[i] in blocked {
          assert ms[i] in ms;
          return false;
        }
        applied := applied + [ms[i]];
        userVersion := ms[i];
      }
      ok := true;
    }
  }

  /** The first `n` migrations are applied, once each and in order, and the version says so. */
  predicate Applied(db: Db, ms: seq<nat>, n: nat) {
    n <= |ms| && db.applied == ms[..n] && db.version == if n == 0 then 0 else ms[n - 1]
  }

  lemma {:induction false} SkipApplied(db: Db, ms: seq<nat>, i: nat, current: nat, blocked: set<nat>)
    requires i <= |ms| && forall j :: 0 <= j < i ==> ms[j] <= current
    ensures RunFrom(db, ms, current, blocked) == RunFrom(db, ms[i..], current, blocked)
  {
    if i == 0 {
      assert ms[0..] == ms;
    } else {
      SkipApplied(db, ms[1..], i - 1, current, blocked);
      assert ms[1..][i - 1..] == ms[i..];
    }
  }

  /** What the loop does from the first migration that is not yet applied. */
  lemma {:induction false} RunApplies(db: Db, ms: seq<nat>, n: nat, current: nat, blocked: set<nat>) returns (m: nat)
    requires Increasing(ms) && Applied(db, ms, n) && forall j :: n <= j < |ms| ==> ms[j] > current
    ensures n <= m <= |ms| && Applied(RunFrom(db, ms[n..], current, blocked), ms, m)
    ensures m == |ms| || ms[m] in blocked
    ensures forall j :: n <= j < m ==> ms[j] !in blocked
    decreases |ms| - n
  {
    m := n;
    if n < |ms| && ms[n] !in blocked {
      var next := Db(ms[n], db.applied + [ms[n]]);
      assert ms[..n + 1] == ms[..n] + [ms[n]];
      assert ms[n..][1..] == ms[n + 1..];
      m := RunApplies(next, ms, n + 1, current, blocked);
    }
  }

  lemma RunOnce(db: Db, ms: seq<nat>, n: nat, blocked: set<nat>) returns (m: nat)
    requires Increasing(ms) && Applied(db, ms, n)
    ensures n <= m <= |ms| && Applied(RunFrom(db, ms, db.version, blocked), ms, m)
    ensures m == |ms| <==> forall j :: n <= j < |ms| ==> ms[j] !in blocked
  {
    SkipApplied(db, ms, n, db.version, blocked);
    m := RunApplies(db, ms, n, db.version, blocked);
  }

  /** Each run uses the same list of migrations, or one that a later program has extended. */
  predicate Upgrading(ms: seq<nat>, runs: seq<Attempt>)
    decreases runs
  {
    runs == [] || (ms <= runs[0].migrations && Increasing(runs[0].migrations)
      && Upgrading(runs[0].migrations, runs[1..]))
  }

  /**
   * However often migrating fails, dies or is repeated by later programs, every migration is
   * applied at most once and in order, and the version is that of the last one applied.
   */
  lemma {:induction false} MigratedInOrder(db: Db, ms: seq<nat>, n: nat, runs: seq<Attempt>)
      returns (last: seq<nat>, m: nat)
    requires Increasing(ms) && Applied(db, ms, n) && Upgrading(ms, runs)
    ensures last == (if runs == [] then ms else runs[|runs| - 1].migrations) && Increasing(last)
    ensures n <= m && Applied(RunAll(db, runs), last, m)
    ensures runs != [] && runs[|runs| - 1].blocked == {} ==> RunAll(db, runs).applied == last
    decreases runs
  {
    if runs == [] {
      last, m := ms, n;
    } else {
      var more := runs[0].migrations;
      assert more[..n] == ms[..n];
      var k := RunOnce(db, more, n, runs[0].blocked);
      last, m := MigratedInOrder(RunFrom(db, more, db.version, runs[0].blocked), more, k, runs[1..]);
    }
  }
}
