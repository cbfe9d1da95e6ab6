/** Which backups a rotation deletes: `selectBackupsToDelete` and the loop that unlinks them. */
module BackupRotation {
  import opened Common
  import opened BackupNames

  function Limit(kind: Kind): nat {
    match kind
    case Scheduled => 10
    case Manual => 5
    case Premigration => 3
    case Prerestore => 3
  }

  function OfKind(ps: seq<ParsedName>, kind: Kind): seq<ParsedName> {
    if ps == [] then [] else (if ps[0].kind == kind then [ps[0]] else []) + OfKind(ps[1..], kind)
  }

  predicate Older(a: ParsedName, b: ParsedName) {
    Lex(a.timestamp, b.timestamp)
  }

  /** Stable insertion, newest first. */
  function InsertNewest(p: ParsedName, ps: seq<ParsedName>): seq<ParsedName> {
    if ps == [] || !Older(p, ps[0]) then [p] + ps else [ps[0]] + InsertNewest(p, ps[1..])
  }

  function NewestFirst(ps: seq<ParsedName>): seq<ParsedName> {
    if ps == [] then [] else InsertNewest(ps[0], NewestFirst(ps[1..]))
  }

  /** Stable insertion, oldest first. */
  function InsertOldest(p: ParsedName, ps: seq<ParsedName>): seq<ParsedName> {
    if ps == [] || !Older(ps[0], p) then [p] + ps else [ps[0]] + InsertOldest(p, ps[1..])
  }

  function OldestFirst(ps: seq<ParsedName>): seq<ParsedName> {
    if ps == [] then [] else InsertOldest(ps[0], OldestFirst(ps[1..]))
  }

  function KeptOf(ps: seq<ParsedName>, kind: Kind): seq<ParsedName> {
    var sorted := NewestFirst(OfKind(ps, kind));
    if |sorted| <= Limit(kind) then sorted else sorted[..Limit(kind)]
  }

  function DeletedOf(ps: seq<ParsedName>, kind: Kind): seq<ParsedName> {
    var sorted := NewestFirst(OfKind(ps, kind));
    if |sorted| <= Limit(kind) then [] else OldestFirst(sorted[Limit(kind)..])
  }

  /** `selectBackupsToDelete`. */
  function Deleted(ps: seq<ParsedName>): seq<ParsedName> {
    DeletedOf(ps, Scheduled) + DeletedOf(ps, Manual) + DeletedOf(ps, Premigration) + DeletedOf(ps, Prerestore)
  }

  // ------------------------------------------------------------------- sorting

  lemma {:induction false} LexTotal(a: string, b: string)
    ensures !Lex(a, a) && !(Lex(a, b) && Lex(b, a))
  {
    if a != [] {
      LexTotal(a[1..], if b == [] then [] else b[1..]);
    }
  }

  /** If neither comes before the next, neither does the first come before the last. */
  lemma {:induction false} NotLexTransitive(a: string, b: string, c: string)
    requires !Lex(a, b) && !Lex(b, c)
    ensures !Lex(a, c)
  {
    if a != [] && b != [] && c != [] && a[0] == b[0] == c[0] {
      NotLexTransitive(a[1..], b[1..], c[1..]);
    }
  }

  ghost predicate Descending(ps: seq<ParsedName>) {
    forall i, j :: 0 <= i < j < |ps| ==> !Older(ps[i], ps[j])
  }

  lemma {:induction false} InsertNewestSorts(p: ParsedName, ps: seq<ParsedName>)
    requires Descending(ps)
    ensures Descending(InsertNewest(p, ps)) && multiset(InsertNewest(p, ps)) == multiset{p} + multiset(ps)
  {
    if ps == [] {
    } else if !Older(p, ps[0]) {
      forall i | 0 <= i < |ps| ensures !Older(p, ps[i]) {
        if i > 0 { NotLexTransitive(p.timestamp, ps[0].timestamp, ps[i].timestamp); }
      }
    } else {
      InsertNewestSorts(p, ps[1..]);
      assert ps == [ps[0]] + ps[1..];
      var rest := InsertNewest(p, ps[1..]);
      forall i | 0 <= i < |rest| ensures !Older(ps[0], rest[i]) {
        assert rest[i] in multiset(rest);
        if rest[i] == p { LexTotal(p.timestamp, ps[0].timestamp); } else { assert rest[i] in ps[1..]; }
      }
    }
  }

  lemma {:induction false} NewestFirstSorts(ps: seq<ParsedName>)
    ensures Descending(NewestFirst(ps)) && multiset(NewestFirst(ps)) == multiset(ps)
  {
    if ps != [] {
      NewestFirstSorts(ps[1..]);
      InsertNewestSorts(ps[0], NewestFirst(ps[1..]));
      assert ps == [ps[0]] + ps[1..];
    }
  }

  lemma {:induction false} OldestFirstKeeps(ps: seq<ParsedName>)
    ensures multiset(OldestFirst(ps)) == multiset(ps)
  {
    if ps != [] {
      OldestFirstKeeps(ps[1..]);
      InsertOldestKeeps(ps[0], OldestFirst(ps[1..]));
      assert ps == [ps[0]] + ps[1..];
    }
  }

  lemma {:induction false} InsertOldestKeeps(p: ParsedName, ps: seq<ParsedName>)
    ensures multiset(InsertOldest(p, ps)) == multiset{p} + multiset(ps)
  {
    if ps != [] && Older(ps[0], p) {
      InsertOldestKeeps(p, ps[1..]);
      assert ps == [ps[0]] + ps[1..];
    }
  }

  function Least(a: nat, b: nat): nat {
    if a <= b then a else b
  }

  lemma SplitOrder(sorted: seq<ParsedName>, n: nat, x: ParsedName, y: ParsedName)
    requires n <= |sorted| && Descending(sorted) && x in sorted[..n] && y in sorted[n..]
    ensures !Older(x, y)
  {
    var i :| 0 <= i < n && sorted[..n][i] == x;
    var j :| 0 <= j < |sorted[n..]| && sorted[n..][j] == y;
    assert sorted[i] == x && sorted[n + j] == y;
  }

  lemma SameLength(a: seq<ParsedName>, b: seq<ParsedName>)
    requires multiset(a) == multiset(b)
    ensures |a| == |b|
  {
    assert |a| == |multiset(a)| && |b| == |multiset(b)|;
  }

  lemma OldestFirstMembers(ps: seq<ParsedName>, y: ParsedName)
    ensures y in OldestFirst(ps) <==> y in ps
  {
    OldestFirstKeeps(ps);
    assert y in OldestFirst(ps) <==> y in multiset(OldestFirst(ps));
    assert y in ps <==> y in multiset(ps);
  }

  /**
   * Of each kind exactly the limit is kept where there are more, kept and deleted are the backups
   * of the kind, and no kept backup is older than a deleted one.
   */
  lemma RotationExact(ps: seq<ParsedName>, kind: Kind)
    ensures |KeptOf(ps, kind)| == Least(|OfKind(ps, kind)|, Limit(kind))
    ensures multiset(KeptOf(ps, kind)) + multiset(DeletedOf(ps, kind)) == multiset(OfKind(ps, kind))
    ensures forall x, y :: x in KeptOf(ps, kind) && y in DeletedOf(ps, kind) ==> !Older(x, y)
  {
    var sorted, n := NewestFirst(OfKind(ps, kind)), Limit(kind);
    NewestFirstSorts(OfKind(ps, kind));
    SameLength(sorted, OfKind(ps, kind));
    if |sorted| > n {
      OldestFirstKeeps(sorted[n..]);
      assert sorted == sorted[..n] + sorted[n..];
      forall x, y | x in KeptOf(ps, kind) && y in DeletedOf(ps, kind) ensures !Older(x, y) {
        OldestFirstMembers(sorted[n..], y);
        SplitOrder(sorted, n, x, y);
      }
    }
  }

  lemma {:induction false} OfKindIs(ps: seq<ParsedName>, kind: Kind)
    ensures forall p :: p in OfKind(ps, kind) <==> p in ps && p.kind == kind
    ensures Distinct(ps) ==> Distinct(OfKind(ps, kind))
  {
    if ps != [] {
      OfKindIs(ps[1..], kind);
      assert ps == [ps[0]] + ps[1..];
    }
  }

  ghost predicate Distinct(ps: seq<ParsedName>) {
    forall i, j :: 0 <= i < j < |ps| ==> ps[i] != ps[j]
  }

  /** A deleted name is one of the list, of a kind with too many, and no kept name is older. */
  lemma DeletedIs(ps: seq<ParsedName>, p: ParsedName)
    ensures p in Deleted(ps) <==> p in DeletedOf(ps, p.kind)
    ensures p in Deleted(ps) ==> p in ps
  {
    DeletedKind(ps, Scheduled);
    DeletedKind(ps, Manual);
    DeletedKind(ps, Premigration);
    DeletedKind(ps, Prerestore);
  }

  lemma DeletedKind(ps: seq<ParsedName>, kind: Kind)
    ensures forall p :: p in DeletedOf(ps, kind) ==> p.kind == kind && p in ps
  {
    RotationExact(ps, kind);
    OfKindIs(ps, kind);
    forall p | p in DeletedOf(ps, kind) ensures p in OfKind(ps, kind) {
      assert multiset(DeletedOf(ps, kind))[p] > 0;
      assert multiset(OfKind(ps, kind))[p] > 0;
    }
  }

  // ----------------------------------------------------------------- a rotation

  /** `readdirSync(...).map(parseBackupName).filter(...)`. */
  function ParsedOf(names: seq<string>): (r: seq<ParsedName>)
    ensures forall p :: p in r ==> p.filename in names && Parse(p.filename) == Some(p)
    ensures forall n :: n in names && Parse(n).Some? ==> Parse(n).value in r
  {
    if names == [] then []
    else
      ParsedFilename(names[0]);
      if Parse(names[0]).None? then ParsedOf(names[1..]) else [Parse(names[0]).value] + ParsedOf(names[1..])
  }

  lemma ParsedFilename(name: string)
    ensures Parse(name).Some? ==> Parse(name).value.filename == name
  {
  }

  /** What the unlink loop leaves of a directory: the new backup itself is never deleted. */
  function Rotated(listing: seq<string>, target: string): set<string> {
    set n | n in listing && (n == target || Parse(n).None? || Parse(n).value !in Deleted(ParsedOf(listing)))
  }

  predicate OfKindName(n: string, kind: Kind) {
    Parse(n).Some? && Parse(n).value.kind == kind
  }

  function NamesOf(names: set<string>, kind: Kind): set<string> {
    set n | n in names && OfKindName(n, kind)
  }

  ghost predicate DistinctNames(names: seq<string>) {
    forall i, j :: 0 <= i < j < |names| ==> names[i] != names[j]
  }

  lemma {:induction false} ParsedDistinct(names: seq<string>)
    requires DistinctNames(names)
    ensures Distinct(ParsedOf(names))
  {
    if names != [] {
      ParsedDistinct(names[1..]);
      if Parse(names[0]).Some? {
        ParsedFilename(names[0]);
        assert names[0] !in names[1..];
        DistinctCons(Parse(names[0]).value, ParsedOf(names[1..]));
      }
    }
  }

  lemma DistinctCons(p: ParsedName, ps: seq<ParsedName>)
    requires Distinct(ps) && p !in ps
    ensures Distinct([p] + ps)
  {
  }

  /** Distinct backups are kept or deleted, not both. */
  lemma KeptOrDeleted(ps: seq<ParsedName>, kind: Kind)
    requires Distinct(ps)
    ensures forall p :: p in ps && p.kind == kind ==> (p in KeptOf(ps, kind) <==> p !in Deleted(ps))
    ensures forall p :: p in KeptOf(ps, kind) ==> p in ps && p.kind == kind
    ensures Distinct(KeptOf(ps, kind))
  {
    RotationExact(ps, kind);
    OfKindIs(ps, kind);
    var all, kept, gone := OfKind(ps, kind), KeptOf(ps, kind), DeletedOf(ps, kind);
    DistinctOnce(all);
    forall p ensures p in kept ==> p in ps && p.kind == kind {
      assert p in kept <==> multiset(kept)[p] > 0;
      assert p in all <==> multiset(all)[p] > 0;
    }
    forall p | p in ps && p.kind == kind ensures p in kept <==> p !in Deleted(ps) {
      DeletedIs(ps, p);
      assert multiset(all)[p] == 1;
      assert multiset(kept)[p] + multiset(gone)[p] == 1;
      assert p in kept <==> multiset(kept)[p] > 0;
      assert p in gone <==> multiset(gone)[p] > 0;
    }
    assert forall p :: multiset(kept)[p] <= multiset(all)[p];
    OnceDistinct(kept);
  }

  lemma OnceDistinct(ps: seq<ParsedName>)
    requires forall p :: multiset(ps)[p] <= 1
    ensures Distinct(ps)
  {
    forall i, j | 0 <= i < j < |ps| ensures ps[i] != ps[j] {
      if ps[i] == ps[j] {
        TwiceCounted(ps, i, j);
      }
    }
  }

  lemma TwiceCounted(ps: seq<ParsedName>, i: nat, j: nat)
    requires i < j < |ps| && ps[i] == ps[j]
    ensures multiset(ps)[ps[i]] >= 2
  {
    assert ps == ps[..i] + [ps[i]] + ps[i + 1..j] + [ps[j]] + ps[j + 1..];
  }

  lemma {:induction false} DistinctOnce(ps: seq<ParsedName>)
    requires Distinct(ps)
    ensures forall p :: multiset(ps)[p] <= 1 && (p in ps ==> multiset(ps)[p] == 1)
  {
    if ps != [] {
      DistinctOnce(ps[1..]);
      assert ps == [ps[0]] + ps[1..];
      assert multiset(ps) == multiset{ps[0]} + multiset(ps[1..]);
      assert ps[0] !in ps[1..];
    }
  }

  function FileNames(ps: seq<ParsedName>): set<string> {
    set p | p in ps :: p.filename
  }

  /** The new backup, when it is one of those selected for deletion. */
  function Spared(ps: seq<ParsedName>, target: string, kind: Kind): set<string> {
    if OfKindName(target, kind) && Parse(target).value in Deleted(ps) then {target} else {}
  }

  /** A name is among the kept ones of a kind exactly when it is listed and not selected. */
  lemma KeptName(listing: seq<string>, kind: Kind, n: string)
    requires DistinctNames(listing)
    ensures n in FileNames(KeptOf(ParsedOf(listing), kind)) <==>
              n in listing && OfKindName(n, kind) && Parse(n).value !in Deleted(ParsedOf(listing))
  {
    var ps := ParsedOf(listing);
    ParsedDistinct(listing);
    KeptOrDeleted(ps, kind);
    ParsedFilename(n);
    if n in FileNames(KeptOf(ps, kind)) {
      var p :| p in KeptOf(ps, kind) && p.filename == n;
      assert p in ps && Parse(n) == Some(p);
    } else if n in listing && OfKindName(n, kind) {
      assert Parse(n).value in ps;
    }
  }

  lemma RotatedNames(listing: seq<string>, target: string, kind: Kind)
    requires DistinctNames(listing) && target in listing
    ensures var ps := ParsedOf(listing);
            && NamesOf(Rotated(listing, target), kind) == FileNames(KeptOf(ps, kind)) + Spared(ps, target, kind)
            && FileNames(KeptOf(ps, kind)) !! Spared(ps, target, kind)
  {
    var kept, spared := FileNames(KeptOf(ParsedOf(listing), kind)), Spared(ParsedOf(listing), target, kind);
    KeptName(listing, kind, target);
    forall n ensures n in NamesOf(Rotated(listing, target), kind) <==> n in kept + spared {
      KeptName(listing, kind, n);
    }
  }

  // --------------------------------------------------- where a backup stands in its kind

  /** How many backups of its kind have a later timestamp than `p`. */
  function Newer(ps: seq<ParsedName>, p: ParsedName): nat {
    if ps == [] then 0 else (if ps[0].kind == p.kind && Older(p, ps[0]) then 1 else 0) + Newer(ps[1..], p)
  }

  /**
   * How many backups of its kind come before `p`: those with a later timestamp and, of those with
   * the same timestamp, the ones listed before it.
   */
  function Ahead(ps: seq<ParsedName>, p: ParsedName): nat {
    if ps == [] then 0
    else if ps[0] == p then Newer(ps[1..], p)
    else (if ps[0].kind == p.kind && !Older(ps[0], p) then 1 else 0) + Ahead(ps[1..], p)
  }

  ghost predicate AllOf(ps: seq<ParsedName>, kind: Kind) {
    forall i :: 0 <= i < |ps| ==> ps[i].kind == kind
  }

  lemma {:induction false} NoneNewer(ps: seq<ParsedName>, p: ParsedName)
    requires forall i :: 0 <= i < |ps| ==> !Older(p, ps[i])
    ensures Newer(ps, p) == 0
  {
    if ps != [] {
      NoneNewer(ps[1..], p);
    }
  }

  lemma FirstNotNewer(ps: seq<ParsedName>, p: ParsedName)
    requires Descending(ps) && ps != [] && !Older(p, ps[0])
    ensures forall i :: 0 <= i < |ps| ==> !Older(p, ps[i])
  {
    forall i | 0 < i < |ps| ensures !Older(p, ps[i]) {
      NotLexTransitive(p.timestamp, ps[0].timestamp, ps[i].timestamp);
    }
  }

  /** A backup is inserted behind those newer than itself. */
  lemma {:induction false} InsertedAt(ps: seq<ParsedName>, p: ParsedName)
    requires Descending(ps) && AllOf(ps, p.kind)
    ensures Newer(ps, p) <= |ps| < |InsertNewest(p, ps)| && InsertNewest(p, ps)[Newer(ps, p)] == p
  {
    if ps != [] && Older(p, ps[0]) {
      InsertedAt(ps[1..], p);
    } else if ps != [] {
      FirstNotNewer(ps, p);
      NoneNewer(ps, p);
    }
  }

  /** Inserting moves a backup back unless the inserted one is older. */
  lemma {:induction false} InsertMoves(ps: seq<ParsedName>, x: ParsedName, j: nat)
    requires Descending(ps) && j < |ps|
    ensures |InsertNewest(x, ps)| == |ps| + 1
    ensures InsertNewest(x, ps)[if Older(x, ps[j]) then j else j + 1] == ps[j]
  {
    if Older(x, ps[0]) {
      if j > 0 {
        InsertMoves(ps[1..], x, j - 1);
      } else {
        InsertLength(x, ps);
      }
    } else {
      FirstNotNewer(ps, x);
    }
  }

  lemma {:induction false} InsertLength(x: ParsedName, ps: seq<ParsedName>)
    ensures |InsertNewest(x, ps)| == |ps| + 1
  {
    if ps != [] && Older(x, ps[0]) {
      InsertLength(x, ps[1..]);
    }
  }

  lemma {:induction false} NewerInserted(ps: seq<ParsedName>, x: ParsedName, p: ParsedName)
    ensures Newer(InsertNewest(x, ps), p) == Newer([x] + ps, p)
  {
    assert ([x] + ps)[1..] == ps;
    if ps != [] && Older(x, ps[0]) {
      NewerInserted(ps[1..], x, p);
      assert ([x] + ps[1..])[1..] == ps[1..];
      assert ([ps[0]] + InsertNewest(x, ps[1..]))[1..] == InsertNewest(x, ps[1..]);
    }
  }

  lemma {:induction false} NewerSorted(ps: seq<ParsedName>, p: ParsedName)
    ensures Newer(NewestFirst(ps), p) == Newer(ps, p)
  {
    if ps != [] {
      NewerSorted(ps[1..], p);
      NewerInserted(NewestFirst(ps[1..]), ps[0], p);
      assert ([ps[0]] + NewestFirst(ps[1..]))[1..] == NewestFirst(ps[1..]);
    }
  }

  lemma SortedKind(ps: seq<ParsedName>, kind: Kind)
    requires AllOf(ps, kind)
    ensures Descending(NewestFirst(ps)) && AllOf(NewestFirst(ps), kind)
  {
    NewestFirstSorts(ps);
    forall i | 0 <= i < |NewestFirst(ps)| ensures NewestFirst(ps)[i].kind == kind {
      assert multiset(NewestFirst(ps))[NewestFirst(ps)[i]] > 0;
      assert NewestFirst(ps)[i] in ps;
    }
  }

  /** The place of a backup in the sorted list of its kind. */
  lemma {:induction false} SortedAt(ps: seq<ParsedName>, p: ParsedName)
    requires Distinct(ps) && AllOf(ps, p.kind) && p in ps
    ensures Ahead(ps, p) < |NewestFirst(ps)| && NewestFirst(ps)[Ahead(ps, p)] == p
  {
    var rest := NewestFirst(ps[1..]);
    SortedKind(ps[1..], p.kind);
    if ps[0] == p {
      NewerSorted(ps[1..], p);
      InsertedAt(rest, p);
    } else {
      assert p in ps[1..];
      SortedAt(ps[1..], p);
      InsertMoves(rest, ps[0], Ahead(ps[1..], p));
    }
  }

  lemma {:induction false} AheadOfKind(ps: seq<ParsedName>, p: ParsedName)
    ensures Ahead(OfKind(ps, p.kind), p) == Ahead(ps, p) && Newer(OfKind(ps, p.kind), p) == Newer(ps, p)
  {
    if ps != [] {
      AheadOfKind(ps[1..], p);
      assert OfKind(ps, p.kind)
          == if ps[0].kind == p.kind then [ps[0]] + OfKind(ps[1..], p.kind) else OfKind(ps[1..], p.kind);
    }
  }

  lemma SplitAt(sorted: seq<ParsedName>, n: nat, i: nat)
    requires Distinct(sorted) && n <= |sorted| && i < |sorted|
    ensures sorted[i] in sorted[n..] <==> i >= n
  {
    if i >= n {
      assert sorted[n..][i - n] == sorted[i];
    } else {
      assert forall j :: 0 <= j < |sorted[n..]| ==> sorted[n..][j] == sorted[n + j];
    }
  }

  /** A backup is selected for deletion exactly when as many as the limit come before it. */
  lemma DeletedExactly(ps: seq<ParsedName>, p: ParsedName)
    requires Distinct(ps) && p in ps
    ensures p in Deleted(ps) <==>
              Ahead(ps, p) >= match p.kind
                              case Scheduled => 10
                              case Manual => 5
                              case Premigration => 3
                              case Prerestore => 3
  {
    var all, n := OfKind(ps, p.kind), Limit(p.kind);
    var sorted := NewestFirst(all);
    OfKindIs(ps, p.kind);
    assert AllOf(all, p.kind) by {
      forall i | 0 <= i < |all| ensures all[i].kind == p.kind { assert all[i] in all; }
    }
    SortedAt(all, p);
    AheadOfKind(ps, p);
    DeletedIs(ps, p);
    NewestFirstSorts(all);
    DistinctOnce(all);
    OnceDistinct(sorted);
    if |sorted| > n {
      SplitAt(sorted, n, Ahead(ps, p));
      OldestFirstMembers(sorted[n..], p);
    }
  }

  /**
   * A rotation leaves of each kind as many backups as there are, up to the limit, and one more
   * exactly when the new backup is of this kind and as many others as the limit come before it.
   */
  lemma RotatedCount(listing: seq<string>, target: string, kind: Kind)
    requires DistinctNames(listing) && target in listing
    ensures var ps := ParsedOf(listing);
            var extra := OfKindName(target, kind) && Ahead(ps, Parse(target).value) >= Limit(kind);
            |NamesOf(Rotated(listing, target), kind)| == Least(|OfKind(ps, kind)|, Limit(kind)) + if extra then 1 else 0
  {
    var ps := ParsedOf(listing);
    RotatedNames(listing, target, kind);
    ParsedDistinct(listing);
    KeptOrDeleted(ps, kind);
    RotationExact(ps, kind);
    NamesCount(KeptOf(ps, kind));
    if OfKindName(target, kind) {
      DeletedExactly(ps, Parse(target).value);
    }
  }

  lemma {:induction false} SomeAhead(ps: seq<ParsedName>, p: ParsedName) returns (q: ParsedName)
    requires Distinct(ps) && Ahead(ps, p) > 0
    ensures q in ps && q != p && q.kind == p.kind && !Older(q, p)
  {
    if ps[0] == p {
      q := SomeNewer(ps[1..], p);
      LexTotal(p.timestamp, q.timestamp);
    } else if ps[0].kind == p.kind && !Older(ps[0], p) {
      q := ps[0];
    } else {
      q := SomeAhead(ps[1..], p);
    }
  }

  lemma {:induction false} SomeNewer(ps: seq<ParsedName>, p: ParsedName) returns (q: ParsedName)
    requires Newer(ps, p) > 0
    ensures q in ps && q.kind == p.kind && Older(p, q)
  {
    if ps[0].kind == p.kind && Older(p, ps[0]) {
      q := ps[0];
    } else {
      q := SomeNewer(ps[1..], p);
    }
  }

  /**
   * While the clock runs forward the limit is kept: when every other backup of the kind has an
   * earlier timestamp than the new one, no extra backup stays.
   */
  lemma ForwardClockKeepsLimit(listing: seq<string>, target: string, kind: Kind)
    requires DistinctNames(listing) && target in listing && OfKindName(target, kind)
    requires forall n :: n in listing && n != target && OfKindName(n, kind) ==>
        Older(Parse(n).value, Parse(target).value)
    ensures |NamesOf(Rotated(listing, target), kind)| == Least(|OfKind(ParsedOf(listing), kind)|, Limit(kind))
  {
    var ps, p := ParsedOf(listing), Parse(target).value;
    ParsedDistinct(listing);
    RotatedCount(listing, target, kind);
    if Ahead(ps, p) > 0 {
      var q := SomeAhead(ps, p);
      ParsedFilename(target);
    }
  }

  lemma {:induction false} NamesCount(ps: seq<ParsedName>)
    requires Distinct(ps) && forall p :: p in ps ==> Parse(p.filename) == Some(p)
    ensures |FileNames(ps)| == |ps|
  {
    if ps != [] {
      NamesCount(ps[1..]);
      assert ps == [ps[0]] + ps[1..];
      assert FileNames(ps) == {ps[0].filename} + FileNames(ps[1..]);
      forall p | p in ps[1..] ensures p.filename != ps[0].filename {
        assert p in ps && ps[0] in ps;
        assert p != ps[0];
      }
    }
  }

  /** What a rotation keeps of a kind is nowhere older than what it deletes, but for the new backup. */
  lemma RotatedNewest(listing: seq<string>, target: string, x: string, y: string)
    requires DistinctNames(listing) && x in Rotated(listing, target) && x != target && Parse(x).Some?
    requires y in listing && y !in Rotated(listing, target) && Parse(y).value.kind == Parse(x).value.kind
    ensures !Older(Parse(x).value, Parse(y).value)
  {
    var ps, kind := ParsedOf(listing), Parse(x).value.kind;
    ParsedDistinct(listing);
    KeptOrDeleted(ps, kind);
    RotationExact(ps, kind);
    DeletedIs(ps, Parse(y).value);
  }

  /** In time: a kept backup was made no earlier than a deleted one of its kind. */
  lemma RotatedInTime(listing: seq<string>, target: string, kind: Kind, a: nat, v: nat, b: nat, w: nat)
    requires DistinctNames(listing) && FieldsOf(a).year < 10000 && FieldsOf(b).year < 10000
    requires Format(kind, a, v) in Rotated(listing, target) && Format(kind, a, v) != target
    requires Format(kind, b, w) in listing && Format(kind, b, w) !in Rotated(listing, target)
    ensures a >= b
  {
    ParseFormat(kind, a, v);
    ParseFormat(kind, b, w);
    RotatedNewest(listing, target, Format(kind, a, v), Format(kind, b, w));
    StampOrder(a, b);
  }

  /** `n` is a name of the target's kind with a later timestamp. */
  predicate NewerName(n: string, target: string)
    requires Parse(target).Some?
  {
    OfKindName(n, Parse(target).value.kind) && Older(Parse(target).value, Parse(n).value)
  }

  /** Names of the target's kind with later timestamps. */
  ghost predicate AllNewer(names: seq<string>, target: string) {
    Parse(target).Some?
    && forall n :: n in names ==> NewerName(n, target)
  }

  lemma {:induction false} ParsedEach(names: seq<string>)
    requires forall i :: 0 <= i < |names| ==> Parse(names[i]).Some?
    ensures |ParsedOf(names)| == |names|
    ensures forall i :: 0 <= i < |names| ==> ParsedOf(names)[i] == Parse(names[i]).value
  {
    if names != [] {
      ParsedEach(names[1..]);
    }
  }

  lemma AheadCons(p: ParsedName, rest: seq<ParsedName>, t: ParsedName)
    requires p.kind == t.kind && Older(t, p)
    ensures Ahead([p] + rest, t) == 1 + Ahead(rest, t) && |OfKind([p] + rest, t.kind)| == 1 + |OfKind(rest, t.kind)|
  {
    LexTotal(t.timestamp, p.timestamp);
    assert ([p] + rest)[1..] == rest;
  }

  /** A backup listed behind newer ones of its kind has all of them before it. */
  lemma {:induction false} BehindAll(qs: seq<ParsedName>, t: ParsedName)
    requires forall i :: 0 <= i < |qs| ==> qs[i].kind == t.kind && Older(t, qs[i])
    ensures Ahead(qs + [t], t) == |qs| && |OfKind(qs + [t], t.kind)| == |qs| + 1
  {
    if qs == [] {
      assert [] + [t] == [t] && [t][1..] == [];
    } else {
      assert qs + [t] == [qs[0]] + (qs[1..] + [t]);
      BehindAll(qs[1..], t);
      AheadCons(qs[0], qs[1..] + [t], t);
    }
  }

  lemma NamesBehind(names: seq<string>, target: string)
    requires AllNewer(names, target)
    ensures var ps, t := ParsedOf(names + [target]), Parse(target).value;
            Ahead(ps, t) == |names| && |OfKind(ps, t.kind)| == |names| + 1
  {
    var all, t := names + [target], Parse(target).value;
    forall i | 0 <= i < |all| ensures Parse(all[i]).Some? {
      assert i < |names| ==> all[i] in names;
    }
    ParsedEach(all);
    var qs := ParsedOf(all)[..|names|];
    assert ParsedOf(all) == qs + [t];
    forall i | 0 <= i < |qs| ensures qs[i].kind == t.kind && Older(t, qs[i]) {
      assert all[i] in names && qs[i] == Parse(all[i]).value;
    }
    BehindAll(qs, t);
  }

  lemma NewerDistinct(names: seq<string>, target: string)
    requires AllNewer(names, target) && DistinctNames(names)
    ensures DistinctNames(names + [target])
  {
    LexTotal(Parse(target).value.timestamp, Parse(target).value.timestamp);
    assert target !in names;
  }

  /** The name of a backup of the first version. */
  function NameAt(kind: Kind, at: nat): string {
    Format(kind, at, 0)
  }

  /** Within a minute the year advances by at most one. */
  lemma SoonAfter(at: nat, later: nat)
    requires at <= later < at + 60
    ensures FieldsOf(later).year <= FieldsOf(at).year + 1
  {
    assert at / 86400 <= later / 86400 <= at / 86400 + 1;
    YearNext(at / 86400, later / 86400);
  }

  lemma YearNext(day: nat, next: nat)
    requires next <= day + 1
    ensures YearFrom(next, 0) <= YearFrom(day, 0) + 1
  {
    var y, z := YearFrom(day, 0), YearFrom(next, 0);
    if z > y + 1 {
      YearsGrow(y + 2, z);
      YearNotEmpty(y + 1);
    }
  }

  lemma YearNotEmpty(y: nat)
    ensures YearStart(y) < YearStart(y + 1)
  {
  }

  lemma NamesKind(kind: Kind, at: nat)
    requires FieldsOf(at).year < 10000
    ensures OfKindName(NameAt(kind, at), kind)
  {
    ParseFormat(kind, at, 0);
  }

  lemma NameOrder(kind: Kind, a: nat, b: nat)
    requires a < b && FieldsOf(a).year < 10000 && FieldsOf(b).year < 10000
    ensures Parse(NameAt(kind, a)).Some? && NewerName(NameAt(kind, b), NameAt(kind, a))
  {
    ParseFormat(kind, a, 0);
    ParseFormat(kind, b, 0);
    StampOrder(a, b);
  }

  lemma {:induction false} LexTransitive(a: string, b: string, c: string)
    requires Lex(a, b) && Lex(b, c)
    ensures Lex(a, c)
  {
    if a != [] && a[0] == b[0] == c[0] {
      LexTransitive(a[1..], b[1..], c[1..]);
    }
  }

  lemma NewerThrough(names: seq<string>, mid: string, target: string) returns (more: seq<string>)
    requires AllNewer(names, mid) && DistinctNames(names) && Parse(target).Some? && NewerName(mid, target)
    ensures |more| == |names| + 1 && DistinctNames(more) && AllNewer(more, target)
  {
    NewerDistinct(names, mid);
    more := names + [mid];
    var t, m := Parse(target).value.timestamp, Parse(mid).value.timestamp;
    forall n | n in more ensures NewerName(n, target) {
      if n != mid {
        LexTransitive(t, m, Parse(n).value.timestamp);
      }
    }
  }

  lemma NextNewer(kind: Kind, start: nat, at: nat)
    requires start <= at && at + 1 < start + 60 && FieldsOf(start).year < 9999
    ensures Parse(NameAt(kind, at)).Some? && NewerName(NameAt(kind, at + 1), NameAt(kind, at))
  {
    SoonAfter(start, at);
    SoonAfter(start, at + 1);
    NameOrder(kind, at, at + 1);
  }

  /** Names of backups made in the `n` seconds after an instant. */
  lemma {:induction false} LaterNames(kind: Kind, start: nat, at: nat, n: nat) returns (names: seq<string>)
    requires start <= at && at + n < start + 60 && FieldsOf(start).year < 9999
    ensures |names| == n && DistinctNames(names) && AllNewer(names, NameAt(kind, at))
    decreases n
  {
    if n == 0 {
      SoonAfter(start, at);
      NamesKind(kind, at);
      names := [];
    } else {
      var later := LaterNames(kind, start, at + 1, n - 1);
      NextNewer(kind, start, at);
      names := NewerThrough(later, NameAt(kind, at + 1), NameAt(kind, at));
    }
  }

  /**
   * When the clock has gone back the extra backup does stay: after as many backups as the limit,
   * made in the seconds that follow the new one, one more than the limit remains.
   */
  lemma ExtraBackupStays(kind: Kind, at: nat) returns (listing: seq<string>, target: string)
    requires FieldsOf(at).year < 9999
    ensures target == NameAt(kind, at) && DistinctNames(listing) && target in listing
    ensures |NamesOf(Rotated(listing, target), kind)| == Limit(kind) + 1
  {
    var n := Limit(kind);
    target := NameAt(kind, at);
    NamesKind(kind, at);
    var later := LaterNames(kind, at, at, n);
    NewerDistinct(later, target);
    NamesBehind(later, target);
    listing := later + [target];
    RotatedCount(listing, target, kind);
  }
}
