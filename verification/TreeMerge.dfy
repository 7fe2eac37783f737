/** The boot-time migration of a directory into persistent storage
    (bootstrap/init.go): the source tree is merged into a live tree without
    overwriting anything, conflicting entries go to a sibling conflict tree. */
module TreeMerge {
  import opened Text

  /** Path components from the root directory, which is []. */
  type Path = seq<string>

  /** An entry on disk; Special stands for FIFOs, sockets and devices. */
  datatype Node = FileNode(data: string) | LinkNode(target: string) | SpecialNode | DirNode

  type Disk = map<Path, Node>

  /** The source directory, which the migration only reads. */
  datatype Tree = File(data: string) | Link(target: string) | Special | Dir(kids: Kids)
  datatype Kids = Nil | Cons(name: string, tree: Tree, rest: Kids)

  predicate Named(kids: Kids, name: string) {
    kids.Cons? && (kids.name == name || Named(kids.rest, name))
  }

  /** The entries of one directory have different names. */
  predicate Proper(t: Tree) {
    t.Dir? ==> ProperKids(t.kids)
  }

  predicate ProperKids(kids: Kids) {
    kids.Cons? ==> Proper(kids.tree) && !Named(kids.rest, kids.name) && ProperKids(kids.rest)
  }

  /** The live tree and the conflict tree beside it. */
  datatype Target = Target(parent: Path, name: string) {
    function Live(): Path {
      parent + [name]
    }

    function Conflicts(): Path {
      parent + [name + ".migrated-conflicts"]
    }
  }

  /** Strictly below one of the two trees. */
  predicate Inside(p: Path, at: Target) {
    at.Live() < p || at.Conflicts() < p
  }

  predicate Within(p: Path, at: Target) {
    at.Live() <= p || at.Conflicts() <= p
  }

  // ---------- the file system ----------

  datatype Stat = Found(node: Node) | Absent | Blocked

  /** Every proper prefix is an existing directory. */
  predicate Rooted(fs: Disk, p: Path) {
    forall n :: 0 <= n < |p| ==> p[..n] in fs && fs[p[..n]] == DirNode
  }

  /** Entries live in directories. */
  ghost predicate WellFormed(fs: Disk) {
    && [] in fs && fs[[]] == DirNode
    && (forall p {:trigger Rooted(fs, p)} :: p in fs ==> Rooted(fs, p))
  }

  /** No proper prefix that exists is anything but a directory. */
  predicate Open(fs: Disk, p: Path) {
    forall n :: 0 <= n < |p| && p[..n] in fs ==> fs[p[..n]] == DirNode
  }

  /** os.Lstat: below something that is no directory it fails with ENOTDIR. */
  function Lstat(fs: Disk, p: Path): Stat {
    if !Open(fs, p) then Blocked else if p in fs then Found(fs[p]) else Absent
  }

  /** os.MkdirAll: creates the missing directories, fails on anything else in the way. */
  function MkdirAll(fs: Disk, p: Path): Option<Disk>
    decreases |p|
  {
    if p in fs then if fs[p] == DirNode then Some(fs) else None
    else if p == [] then Some(fs[p := DirNode])
    else
      match MkdirAll(fs, p[..|p| - 1])
      case None => None
      case Some(fs') => if p in fs' then None else Some(fs'[p := DirNode])
  }

  /** Nothing that was there is gone or changed. */
  predicate Extends(fs: Disk, fs': Disk) {
    forall p <- fs :: p in fs' && fs'[p] == fs[p]
  }

  lemma {:induction false} MkdirAllExtends(fs: Disk, p: Path)
    requires WellFormed(fs)
    ensures var r := MkdirAll(fs, p);
            r.Some? ==> Extends(fs, r.value) && WellFormed(r.value) && p in r.value && r.value[p] == DirNode &&
                        forall q <- r.value :: q in fs || q <= p
    decreases |p|
  {
    if p !in fs {
      var up := p[..|p| - 1];
      MkdirAllExtends(fs, up);
      var r := MkdirAll(fs, up);
      if r.Some? && p !in r.value { AddWellFormed(r.value, p, DirNode); }
    }
  }

  lemma AddWellFormed(fs: Disk, p: Path, n: Node)
    requires WellFormed(fs) && p != [] && p !in fs && p[..|p| - 1] in fs && fs[p[..|p| - 1]] == DirNode
    ensures WellFormed(fs[p := n])
  {
    var fs' := fs[p := n];
    assert Rooted(fs, p[..|p| - 1]);
    forall q | q in fs' ensures Rooted(fs', q) {
      if q == p {
        forall k | 0 <= k < |p| ensures p[..k] in fs' && fs'[p[..k]] == DirNode {
          if k < |p| - 1 { assert p[..k] == p[..|p| - 1][..k]; }
        }
      } else {
        assert Rooted(fs, q);
      }
    }
  }

  function NodeOf(t: Tree): Node {
    match t
    case File(d) => FileNode(d)
    case Link(target) => LinkNode(target)
    case Special => SpecialNode
    case Dir(_) => DirNode
  }

  /** migratedEntriesEqual: equal links, or regular files with equal content. */
  predicate SameEntry(t: Tree, n: Node) {
    (t.File? || t.Link?) && n == NodeOf(t)
  }

  // ---------- conflict names ----------

  function WithSuffix(p: Path, suffix: string): (r: Path)
    requires p != []
    ensures |r| == |p| && r[..|p| - 1] == p[..|p| - 1]
  {
    p[..|p| - 1] + [p[|p| - 1] + suffix]
  }

  /** Where an entry goes when its name is taken: the path relative to its root, below the
      conflict tree. From either root, the relative path of something already in the
      conflict tree leads back to where it is. */
  function ConflictBase(dst: Path, at: Target): (r: Path)
    requires Inside(dst, at)
    ensures at.Conflicts() < r
  {
    if at.Conflicts() < dst then WithSuffix(dst, ".migrated")
    else WithSuffix(at.Conflicts() + dst[|at.Live()|..], ".migrated")
  }

  /** base, base.1, base.2, … */
  function Candidate(base: Path, attempt: nat): (r: Path)
    requires base != []
    ensures |r| == |base| && r[..|base| - 1] == base[..|base| - 1]
  {
    if attempt == 0 then base else WithSuffix(base, "." + Decimal(attempt))
  }

  lemma CandidatesDiffer(base: Path, i: nat, j: nat)
    requires base != [] && i < j
    ensures Candidate(base, i) != Candidate(base, j)
  {
    var last := base[|base| - 1];
    var a := if i == 0 then last else last + "." + Decimal(i);
    var b := last + "." + Decimal(j);
    assert Candidate(base, j)[|base| - 1] == b;
    assert Candidate(base, i)[|base| - 1] == a;
    NonEmptyDecimal(j);
    if i > 0 && a == b {
      assert a[|last| + 1..] == Decimal(i) && b[|last| + 1..] == Decimal(j);
      DecimalInjective(i, j);
    }
  }

  ghost function FirstNames(base: Path, n: nat): set<Path>
    requires base != []
  {
    if n == 0 then {} else FirstNames(base, n - 1) + {Candidate(base, n - 1)}
  }

  lemma {:induction false} NextNameIsNew(base: Path, n: nat, m: nat)
    requires base != [] && n <= m
    ensures Candidate(base, m) !in FirstNames(base, n)
  {
    if n > 0 {
      NextNameIsNew(base, n - 1, m);
      CandidatesDiffer(base, n - 1, m);
    }
  }

  lemma {:induction false} CountNames(fs: Disk, base: Path, n: nat)
    requires base != [] && forall i :: 0 <= i < n ==> Candidate(base, i) in fs
    ensures |FirstNames(base, n)| == n && FirstNames(base, n) <= fs.Keys
  {
    hide Candidate;
    if n > 0 {
      CountNames(fs, base, n - 1);
      NextNameIsNew(base, n - 1, n - 1);
      assert Candidate(base, n - 1) in fs;
    }
  }

  lemma {:induction false} Subset<T>(a: set<T>, b: set<T>)
    requires a <= b
    ensures |a| <= |b|
  {
    if a != {} {
      var x :| x in a;
      Subset(a - {x}, b - {x});
    }
  }

  /** The conflict names of an entry that belongs at dst. */
  function ConflictName(dst: Path, at: Target, attempt: nat): (r: Path)
    requires Inside(dst, at)
    ensures at.Conflicts() < r
  {
    var r := Candidate(ConflictBase(dst, at), attempt);
    BelowConflicts(ConflictBase(dst, at), r, at);
    r
  }

  lemma BelowConflicts(base: Path, c: Path, at: Target)
    requires at.Conflicts() < base && |c| == |base| && c[..|base| - 1] == base[..|base| - 1]
    ensures at.Conflicts() < c
  {
    var r := at.Conflicts();
    assert r == base[..|base| - 1][..|r|] == c[..|r|];
  }

  /** Pigeonhole: n different taken names need n entries on the disk. */
  lemma TakenNames(fs: Disk, dst: Path, at: Target, n: nat)
    requires Inside(dst, at) && forall i :: 0 <= i < n ==> ConflictName(dst, at, i) in fs
    ensures n <= |fs|
  {
    var base := ConflictBase(dst, at);
    assert forall i :: 0 <= i < n ==> Candidate(base, i) in fs by {
      forall i | 0 <= i < n ensures Candidate(base, i) in fs { assert ConflictName(dst, at, i) == Candidate(base, i); }
    }
    hide Candidate;
    CountNames(fs, base, n);
    Subset(FirstNames(base, n), fs.Keys);
  }

  datatype Slot = Free(attempt: nat) | Kept(attempt: nat) | Stuck

  /** The loop of preserveMigrationConflict: the first conflict name that is free or
      already holds the entry. It ends because the taken names are all different. */
  function FindSlot(fs: Disk, t: Tree, dst: Path, at: Target, attempt: nat): (r: Slot)
    requires Inside(dst, at) && forall i :: 0 <= i < attempt ==> ConflictName(dst, at, i) in fs
    ensures !r.Stuck? ==> forall i :: 0 <= i < r.attempt ==> ConflictName(dst, at, i) in fs
    ensures r.Free? ==> Lstat(fs, ConflictName(dst, at, r.attempt)) == Absent
    ensures r.Kept? ==> ConflictName(dst, at, r.attempt) in fs && SameEntry(t, fs[ConflictName(dst, at, r.attempt)])
    decreases |fs| + 1 - attempt
  {
    hide ConflictName, Open;
    TakenNames(fs, dst, at, attempt);
    match Lstat(fs, ConflictName(dst, at, attempt))
    case Absent => Free(attempt)
    case Blocked => Stuck
    case Found(n) => if SameEntry(t, n) then Kept(attempt) else FindSlot(fs, t, dst, at, attempt + 1)
  }

  // ---------- the migration ----------

  /** What a step leaves behind: the disk, whether it succeeded, and whether a source
      directory met something else under its name. */
  datatype Outcome = Outcome(disk: Disk, ok: bool, clash: bool)

  /** migrateEntry. */
  function Migrate(fs: Disk, t: Tree, dst: Path, at: Target): Outcome
    requires Inside(dst, at)
    decreases t, 1
  {
    match Lstat(fs, dst)
    case Blocked => Outcome(fs, false, false)
    case Absent => Copy(fs, t, dst, at)
    case Found(n) =>
      if t.Dir? && n == DirNode then MigrateKids(fs, t.kids, dst, at)
      else if SameEntry(t, n) then Outcome(fs, true, false)
      else
        match FindSlot(fs, t, dst, at, 0)
        case Stuck => Outcome(fs, false, t.Dir?)
        case Kept(_) => Outcome(fs, true, t.Dir?)
        case Free(k) => Copy(fs, t, ConflictName(dst, at, k), at).(clash := t.Dir?)
  }

  /** mergeDirContents. */
  function MigrateKids(fs: Disk, kids: Kids, dst: Path, at: Target): Outcome
    requires Within(dst, at)
    decreases kids, 2
  {
    match kids
    case Nil => Outcome(fs, true, false)
    case Cons(name, t, rest) =>
      var o := Migrate(fs, t, dst + [name], at);
      if !o.ok then o
      else
        var r := MigrateKids(o.disk, rest, dst, at);
        r.(clash := o.clash || r.clash)
  }

  /** copyMigratedEntry, to a name that is not taken. */
  function Copy(fs: Disk, t: Tree, dst: Path, at: Target): Outcome
    requires Inside(dst, at)
    decreases t, 0
  {
    if t.Special? then Outcome(fs, true, false)
    else
      match MkdirAll(fs, dst[..|dst| - 1])
      case None => Outcome(fs, false, false)
      case Some(fs') =>
        if dst in fs' then Outcome(fs', false, false)
        else
          var fs'' := fs'[dst := NodeOf(t)];
          if t.Dir? then MigrateKids(fs'', t.kids, dst, at) else Outcome(fs'', true, false)
  }

  // ---------- what is kept ----------

  /** The whole entry, apart from what cannot be copied, is found at p. */
  predicate Mirrored(fs: Disk, t: Tree, p: Path) {
    t.Special? || (p in fs && fs[p] == NodeOf(t) && (t.Dir? ==> KidsMirrored(fs, t.kids, p)))
  }

  predicate KidsMirrored(fs: Disk, kids: Kids, p: Path) {
    kids.Cons? ==> Mirrored(fs, kids.tree, p + [kids.name]) && KidsMirrored(fs, kids.rest, p)
  }

  /** Where a migrated entry is kept. In the live tree, a place that was free before holds
      the whole entry; only an entry whose place held something else goes to a conflict
      name, as a whole. A directory that met a directory is kept entry by entry. */
  ghost predicate Stored(before: Disk, fs: Disk, t: Tree, dst: Path, at: Target)
    requires Inside(dst, at)
  {
    if t.Special? then true
    else if at.Live() < dst && dst !in before then Mirrored(fs, t, dst)
    else
      || (dst in fs && fs[dst] == NodeOf(t) && (t.Dir? ==> KidsStored(before, fs, t.kids, dst, at)))
      || ((at.Live() < dst ==> before[dst] != NodeOf(t)) &&
          exists k: nat :: Mirrored(fs, t, ConflictName(dst, at, k)))
  }

  ghost predicate KidsStored(before: Disk, fs: Disk, kids: Kids, dst: Path, at: Target)
    requires Within(dst, at)
  {
    kids.Cons? ==> Stored(before, fs, kids.tree, dst + [kids.name], at) && KidsStored(before, fs, kids.rest, dst, at)
  }

  lemma {:induction false} MirroredStays(fs: Disk, fs': Disk, t: Tree, p: Path)
    requires Extends(fs, fs') && Mirrored(fs, t, p)
    ensures Mirrored(fs', t, p)
    decreases t, 1
  {
    if t.Dir? { KidsMirroredStay(fs, fs', t.kids, p); }
  }

  lemma {:induction false} KidsMirroredStay(fs: Disk, fs': Disk, kids: Kids, p: Path)
    requires Extends(fs, fs') && KidsMirrored(fs, kids, p)
    ensures KidsMirrored(fs', kids, p)
    decreases kids, 2
  {
    if kids.Cons? {
      MirroredStays(fs, fs', kids.tree, p + [kids.name]);
      KidsMirroredStay(fs, fs', kids.rest, p);
    }
  }

  lemma {:induction false} StoredStays(before: Disk, fs: Disk, fs': Disk, t: Tree, dst: Path, at: Target)
    requires Inside(dst, at) && Extends(fs, fs') && Stored(before, fs, t, dst, at)
    ensures Stored(before, fs', t, dst, at)
    decreases t, 1
  {
    if t.Special? {
    } else if at.Live() < dst && dst !in before {
      MirroredStays(fs, fs', t, dst);
    } else if dst in fs && fs[dst] == NodeOf(t) && (t.Dir? ==> KidsStored(before, fs, t.kids, dst, at)) {
      if t.Dir? { KidsStoredStay(before, fs, fs', t.kids, dst, at); }
    } else {
      var k: nat :| Mirrored(fs, t, ConflictName(dst, at, k));
      MirroredStays(fs, fs', t, ConflictName(dst, at, k));
    }
  }

  lemma {:induction false} KidsStoredStay(before: Disk, fs: Disk, fs': Disk, kids: Kids, dst: Path, at: Target)
    requires Within(dst, at) && Extends(fs, fs') && KidsStored(before, fs, kids, dst, at)
    ensures KidsStored(before, fs', kids, dst, at)
    decreases kids, 2
  {
    if kids.Cons? {
      StoredStays(before, fs, fs', kids.tree, dst + [kids.name], at);
      KidsStoredStay(before, fs, fs', kids.rest, dst, at);
    }
  }

  /** What was added elsewhere does not matter for where an entry is kept. */
  lemma {:induction false} EarlierBefore(before: Disk, later: Disk, fs: Disk, t: Tree, dst: Path, at: Target)
    requires Inside(dst, at) && Extends(before, later) && Stored(later, fs, t, dst, at)
    requires forall q <- later :: q in before || !(at.Live() < q && dst <= q)
    ensures Stored(before, fs, t, dst, at)
    decreases t, 1
  {
    if !t.Special? && !(at.Live() < dst && dst !in before) {
      if dst in fs && fs[dst] == NodeOf(t) && (t.Dir? ==> KidsStored(later, fs, t.kids, dst, at)) {
        if t.Dir? { KidsEarlierBefore(before, later, fs, t.kids, dst, at); }
      } else {
        var k: nat :| Mirrored(fs, t, ConflictName(dst, at, k));
      }
    }
  }

  lemma {:induction false} KidsEarlierBefore(before: Disk, later: Disk, fs: Disk, kids: Kids, dst: Path, at: Target)
    requires Within(dst, at) && Extends(before, later) && KidsStored(later, fs, kids, dst, at)
    requires forall q <- later :: q in before || !(at.Live() < q && dst < q && Named(kids, q[|dst|]))
    ensures KidsStored(before, fs, kids, dst, at)
    decreases kids, 2
  {
    if kids.Cons? {
      var p := dst + [kids.name];
      forall q | q in later && at.Live() < q && p <= q ensures q in before {
        assert q[|dst|] == kids.name && dst < q;
      }
      EarlierBefore(before, later, fs, kids.tree, p, at);
      KidsEarlierBefore(before, later, fs, kids.rest, dst, at);
    }
  }

  lemma {:induction false} MirroredIsStored(before: Disk, fs: Disk, t: Tree, dst: Path, at: Target)
    requires Inside(dst, at) && Mirrored(fs, t, dst) && !(at.Live() < dst && dst in before)
    ensures Stored(before, fs, t, dst, at)
    decreases t, 1
  {
    if t.Dir? && !(at.Live() < dst) { KidsMirroredAreStored(before, fs, t.kids, dst, at); }
  }

  lemma {:induction false} KidsMirroredAreStored(before: Disk, fs: Disk, kids: Kids, dst: Path, at: Target)
    requires at.Conflicts() <= dst && KidsMirrored(fs, kids, dst)
    ensures KidsStored(before, fs, kids, dst, at)
    decreases kids, 2
  {
    if kids.Cons? {
      Apart(dst + [kids.name], at);
      MirroredIsStored(before, fs, kids.tree, dst + [kids.name], at);
      KidsMirroredAreStored(before, fs, kids.rest, dst, at);
    }
  }

  /** The two trees have no path in common. */
  lemma Apart(p: Path, at: Target)
    requires at.Conflicts() <= p
    ensures !(at.Live() <= p)
  {
    assert p[|at.parent|] == at.Conflicts()[|at.parent|] == at.name + ".migrated-conflicts";
    assert at.Live()[|at.parent|] == at.name;
    assert |p[|at.parent|]| > |at.name|;
  }

  lemma AboveOrBelow(p: Path, at: Target)
    requires p <= at.Conflicts() || at.Conflicts() <= p
    ensures !(at.Live() < p)
  {
    if at.Conflicts() <= p { Apart(p, at); }
  }

  // ---------- a copy to a free name is complete ----------

  /** Only what lies on the way to p or below it is new. */
  predicate OnlyAround(fs: Disk, fs': Disk, p: Path) {
    forall q <- fs' :: q in fs || q <= p || p <= q
  }

  /** A copy to a free name keeps everything, meets nothing in its way, adds nothing
      elsewhere, and if it succeeds it is complete. */
  lemma {:induction false} CopyMirrors(fs: Disk, t: Tree, dst: Path, at: Target)
    requires Inside(dst, at) && WellFormed(fs) && Proper(t) && Lstat(fs, dst) == Absent
    ensures var o := Copy(fs, t, dst, at);
            Extends(fs, o.disk) && WellFormed(o.disk) && OnlyAround(fs, o.disk, dst) && !o.clash &&
            (o.ok ==> Mirrored(o.disk, t, dst))
    decreases t, 0
  {
    if !t.Special? {
      var up := dst[..|dst| - 1];
      MkdirAllExtends(fs, up);
      var r := MkdirAll(fs, up);
      if r.Some? && dst !in r.value {
        AddWellFormed(r.value, dst, NodeOf(t));
        var fs'' := r.value[dst := NodeOf(t)];
        if t.Dir? {
          forall q | q in fs'' && dst <= q ensures q == dst {
            if q in r.value { OnTheWay(r.value, dst, q); }
          }
          KidsMirror(fs'', t.kids, dst, at);
        }
      }
    }
  }

  lemma OnTheWay(fs: Disk, p: Path, q: Path)
    requires WellFormed(fs) && q in fs && p <= q
    ensures p in fs
  {
    assert Rooted(fs, q);
    assert p == q[..|p|];
    if |p| == |q| { assert p == q; }
  }

  lemma OneStepUp(fs: Disk, q: Path, dst: Path, name: string)
    requires WellFormed(fs) && dst in fs && q <= dst + [name]
    ensures q in fs || q == dst + [name]
  {
    if |q| <= |dst| {
      assert q == (dst + [name])[..|q|] == dst[..|q|];
      OnTheWay(fs, q, dst);
    }
  }

  lemma {:induction false} KidsMirror(fs: Disk, kids: Kids, dst: Path, at: Target)
    requires Within(dst, at) && WellFormed(fs) && ProperKids(kids) && dst in fs && fs[dst] == DirNode
    requires forall q <- fs :: dst < q ==> !Named(kids, q[|dst|])
    ensures var o := MigrateKids(fs, kids, dst, at);
            Extends(fs, o.disk) && WellFormed(o.disk) && !o.clash &&
            (forall q <- o.disk :: q in fs || dst < q) &&
            (o.ok ==> KidsMirrored(o.disk, kids, dst))
    decreases kids, 2
  {
    if kids.Cons? {
      var p := dst + [kids.name];
      assert dst < p && p[|dst|] == kids.name;
      assert Rooted(fs, dst);
      forall n | 0 <= n < |p| ensures p[..n] in fs && fs[p[..n]] == DirNode {
        assert p[..n] == dst[..n];
      }
      CopyMirrors(fs, kids.tree, p, at);
      var o := Migrate(fs, kids.tree, p, at);
      assert o == Copy(fs, kids.tree, p, at);
      forall q | q in o.disk && q !in fs ensures p <= q {
        if q <= p { OneStepUp(fs, q, dst, kids.name); }
      }
      if o.ok {
        forall q | q in o.disk && dst < q ensures !Named(kids.rest, q[|dst|]) {
          if q !in fs { assert q[|dst|] == kids.name; }
        }
        KidsMirror(o.disk, kids.rest, dst, at);
        var r := MigrateKids(o.disk, kids.rest, dst, at);
        if r.ok { MirroredStays(o.disk, r.disk, kids.tree, p); }
      }
    }
  }

  // ---------- nothing overwritten, nothing lost ----------

  /** Everything that was on the disk is still there after any migration step, and what a
      successful one migrated is stored. Outside the conflict tree only the entry's own
      place is touched. */
  lemma {:induction false} MigrateKeeps(fs: Disk, t: Tree, dst: Path, at: Target)
    requires Inside(dst, at) && WellFormed(fs) && Proper(t)
    ensures var o := Migrate(fs, t, dst, at);
            Extends(fs, o.disk) && WellFormed(o.disk) && (o.ok ==> Stored(fs, o.disk, t, dst, at)) &&
            forall q <- o.disk :: q in fs || q <= dst || dst <= q || q <= at.Conflicts() || at.Conflicts() <= q
    decreases t, 1
  {
    match Lstat(fs, dst)
    case Blocked =>
    case Absent =>
      CopyMirrors(fs, t, dst, at);
      var o := Copy(fs, t, dst, at);
      if o.ok { MirroredIsStored(fs, o.disk, t, dst, at); }
    case Found(n) =>
      if t.Dir? && n == DirNode {
        KidsKeep(fs, t.kids, dst, at);
      } else if !SameEntry(t, n) {
        ConflictKeeps(fs, t, dst, at);
      }
  }

  lemma ConflictKeeps(fs: Disk, t: Tree, dst: Path, at: Target)
    requires Inside(dst, at) && WellFormed(fs) && Proper(t) && Lstat(fs, dst).Found?
    requires !SameEntry(t, fs[dst]) && !(t.Dir? && fs[dst] == DirNode)
    ensures var o := Migrate(fs, t, dst, at);
            Extends(fs, o.disk) && WellFormed(o.disk) && (o.ok ==> Stored(fs, o.disk, t, dst, at)) &&
            forall q <- o.disk :: q in fs || q <= at.Conflicts() || at.Conflicts() <= q
  {
    var s := FindSlot(fs, t, dst, at, 0);
    if s.Free? {
      var c := ConflictName(dst, at, s.attempt);
      CopyMirrors(fs, t, c, at);
      var o := Copy(fs, t, c, at);
      forall q | q in o.disk && q !in fs ensures q <= at.Conflicts() || at.Conflicts() <= q {
        if q <= c { Prefixes(q, at.Conflicts(), c); }
      }
    } else if s.Kept? {
      assert Mirrored(fs, t, ConflictName(dst, at, s.attempt));
    }
  }

  lemma Prefixes(a: Path, b: Path, c: Path)
    requires a <= c && b <= c
    ensures a <= b || b <= a
  {
    assert a == c[..|a|] && b == c[..|b|];
  }

  lemma {:induction false} KidsKeep(fs: Disk, kids: Kids, dst: Path, at: Target)
    requires Within(dst, at) && WellFormed(fs) && ProperKids(kids) && dst in fs
    ensures var o := MigrateKids(fs, kids, dst, at);
            Extends(fs, o.disk) && WellFormed(o.disk) && (o.ok ==> KidsStored(fs, o.disk, kids, dst, at)) &&
            forall q <- o.disk :: q in fs || dst <= q || q <= at.Conflicts() || at.Conflicts() <= q
    decreases kids, 2
  {
    if kids.Cons? {
      var p := dst + [kids.name];
      MigrateKeeps(fs, kids.tree, p, at);
      var o := Migrate(fs, kids.tree, p, at);
      forall q | q in o.disk && q <= p ensures q in fs || q == p { OneStepUp(fs, q, dst, kids.name); }
      if o.ok {
        KidsKeep(o.disk, kids.rest, dst, at);
        var r := MigrateKids(o.disk, kids.rest, dst, at);
        if r.ok {
          StoredStays(fs, o.disk, r.disk, kids.tree, p, at);
          assert forall q :: p <= q ==> q[|dst|] == kids.name;
          forall q | q in o.disk && at.Live() < q && dst < q && Named(kids.rest, q[|dst|]) ensures q in fs {
            if q <= at.Conflicts() || at.Conflicts() <= q { AboveOrBelow(q, at); }
          }
          KidsEarlierBefore(fs, o.disk, r.disk, kids.rest, dst, at);
        }
      }
    }
  }

  // ---------- a second pass ----------

  /** Migrating the entry again finds it in place or under a conflict name. */
  ghost predicate Settled(fs: Disk, t: Tree, dst: Path, at: Target)
    requires Inside(dst, at)
  {
    match t
    case Special => true
    case Dir(kids) => dst in fs && fs[dst] == DirNode && KidsSettled(fs, kids, dst, at)
    case _ => dst in fs && (fs[dst] == NodeOf(t) || exists k: nat :: HeldAt(fs, t, dst, at, k))
  }

  ghost predicate KidsSettled(fs: Disk, kids: Kids, dst: Path, at: Target)
    requires Within(dst, at)
  {
    kids.Cons? ==> Settled(fs, kids.tree, dst + [kids.name], at) && KidsSettled(fs, kids.rest, dst, at)
  }

  predicate HeldAt(fs: Disk, t: Tree, dst: Path, at: Target, k: nat)
    requires Inside(dst, at)
  {
    (forall i :: 0 <= i <= k ==> ConflictName(dst, at, i) in fs) && fs[ConflictName(dst, at, k)] == NodeOf(t)
  }

  lemma {:induction false} SettledStays(fs: Disk, fs': Disk, t: Tree, dst: Path, at: Target)
    requires Inside(dst, at) && Extends(fs, fs') && Settled(fs, t, dst, at)
    ensures Settled(fs', t, dst, at)
    decreases t, 1
  {
    match t
    case Special =>
    case Dir(kids) => KidsSettledStay(fs, fs', kids, dst, at);
    case _ =>
      if fs[dst] != NodeOf(t) {
        var k: nat :| HeldAt(fs, t, dst, at, k);
        assert HeldAt(fs', t, dst, at, k);
      }
  }

  lemma {:induction false} KidsSettledStay(fs: Disk, fs': Disk, kids: Kids, dst: Path, at: Target)
    requires Within(dst, at) && Extends(fs, fs') && KidsSettled(fs, kids, dst, at)
    ensures KidsSettled(fs', kids, dst, at)
    decreases kids, 2
  {
    if kids.Cons? {
      SettledStays(fs, fs', kids.tree, dst + [kids.name], at);
      KidsSettledStay(fs, fs', kids.rest, dst, at);
    }
  }

  lemma {:induction false} MirroredIsSettled(fs: Disk, t: Tree, dst: Path, at: Target)
    requires Inside(dst, at) && Mirrored(fs, t, dst)
    ensures Settled(fs, t, dst, at)
    decreases t, 1
  {
    if t.Dir? { KidsMirroredAreSettled(fs, t.kids, dst, at); }
  }

  lemma {:induction false} KidsMirroredAreSettled(fs: Disk, kids: Kids, dst: Path, at: Target)
    requires Within(dst, at) && KidsMirrored(fs, kids, dst)
    ensures KidsSettled(fs, kids, dst, at)
    decreases kids, 2
  {
    if kids.Cons? {
      MirroredIsSettled(fs, kids.tree, dst + [kids.name], at);
      KidsMirroredAreSettled(fs, kids.rest, dst, at);
    }
  }

  /** The search for a free name stops at the first copy of the entry. */
  lemma {:induction false} FindsHeld(fs: Disk, t: Tree, dst: Path, at: Target, k: nat, from: nat)
    requires Inside(dst, at) && WellFormed(fs) && SameEntry(t, NodeOf(t)) && HeldAt(fs, t, dst, at, k) && from <= k
    ensures FindSlot(fs, t, dst, at, from).Kept?
    decreases k - from
  {
    hide ConflictName;
    var c := ConflictName(dst, at, from);
    assert Rooted(fs, c);
    if !SameEntry(t, fs[c]) { FindsHeld(fs, t, dst, at, k, from + 1); }
  }

  /** Migrating a settled entry changes nothing. */
  lemma {:induction false} SettledIsLeftAlone(fs: Disk, t: Tree, dst: Path, at: Target)
    requires Inside(dst, at) && WellFormed(fs) && Settled(fs, t, dst, at)
    ensures Migrate(fs, t, dst, at).disk == fs && !Migrate(fs, t, dst, at).clash
    decreases t, 1
  {
    hide ConflictName;
    assert dst in fs ==> Rooted(fs, dst);
    match t
    case Special =>
    case Dir(kids) => KidsSettledAreLeftAlone(fs, kids, dst, at);
    case _ =>
      if fs[dst] != NodeOf(t) {
        var k: nat :| HeldAt(fs, t, dst, at, k);
        FindsHeld(fs, t, dst, at, k, 0);
      }
  }

  lemma {:induction false} KidsSettledAreLeftAlone(fs: Disk, kids: Kids, dst: Path, at: Target)
    requires Within(dst, at) && WellFormed(fs) && KidsSettled(fs, kids, dst, at)
    ensures MigrateKids(fs, kids, dst, at).disk == fs && !MigrateKids(fs, kids, dst, at).clash
    decreases kids, 2
  {
    if kids.Cons? {
      SettledIsLeftAlone(fs, kids.tree, dst + [kids.name], at);
      KidsSettledAreLeftAlone(fs, kids.rest, dst, at);
    }
  }

  /** A settled directory stands in front of no obstacle. */
  lemma {:induction false} SettledHasNoClash(fs: Disk, t: Tree, dst: Path, at: Target)
    requires Inside(dst, at) && Settled(fs, t, dst, at)
    ensures !Clashing(fs, t, dst)
    decreases t, 1
  {
    if t.Dir? { KidsSettledHaveNoClash(fs, t.kids, dst, at); }
  }

  lemma {:induction false} KidsSettledHaveNoClash(fs: Disk, kids: Kids, dst: Path, at: Target)
    requires Within(dst, at) && KidsSettled(fs, kids, dst, at)
    ensures !KidsClash(fs, kids, dst)
    decreases kids, 2
  {
    if kids.Cons? {
      SettledHasNoClash(fs, kids.tree, dst + [kids.name], at);
      KidsSettledHaveNoClash(fs, kids.rest, dst, at);
    }
  }

  /** A successful step that met no clash leaves its entry settled. */
  lemma {:induction false} MigrateSettles(fs: Disk, t: Tree, dst: Path, at: Target)
    requires Inside(dst, at) && WellFormed(fs) && Proper(t)
    ensures var o := Migrate(fs, t, dst, at); o.ok && !o.clash ==> Settled(o.disk, t, dst, at)
    decreases t, 1
  {
    MigrateKeeps(fs, t, dst, at);
    var o := Migrate(fs, t, dst, at);
    if o.ok && !o.clash {
      match Lstat(fs, dst)
      case Absent =>
        CopyMirrors(fs, t, dst, at);
        MirroredIsSettled(o.disk, t, dst, at);
      case Found(n) =>
        if t.Dir? {
          KidsSettle(fs, t.kids, dst, at);
        } else if !SameEntry(t, n) && !t.Special? {
          ConflictSettles(fs, t, dst, at);
        }
    }
  }

  lemma ConflictSettles(fs: Disk, t: Tree, dst: Path, at: Target)
    requires Inside(dst, at) && WellFormed(fs) && (t.File? || t.Link?)
    requires Lstat(fs, dst).Found? && !SameEntry(t, fs[dst])
    ensures var o := Migrate(fs, t, dst, at); o.ok ==> Settled(o.disk, t, dst, at)
  {
    hide ConflictName;
    var o := Migrate(fs, t, dst, at);
    var s := FindSlot(fs, t, dst, at, 0);
    if o.ok {
      if s.Free? { CopyMirrors(fs, t, ConflictName(dst, at, s.attempt), at); }
      assert HeldAt(o.disk, t, dst, at, s.attempt);
    }
  }

  lemma {:induction false} KidsSettle(fs: Disk, kids: Kids, dst: Path, at: Target)
    requires Within(dst, at) && WellFormed(fs) && ProperKids(kids) && dst in fs
    ensures var o := MigrateKids(fs, kids, dst, at); o.ok && !o.clash ==> KidsSettled(o.disk, kids, dst, at)
    decreases kids, 2
  {
    if kids.Cons? {
      var p := dst + [kids.name];
      MigrateKeeps(fs, kids.tree, p, at);
      MigrateSettles(fs, kids.tree, p, at);
      var o := Migrate(fs, kids.tree, p, at);
      if o.ok && !o.clash {
        KidsKeep(o.disk, kids.rest, dst, at);
        KidsSettle(o.disk, kids.rest, dst, at);
        var r := MigrateKids(o.disk, kids.rest, dst, at);
        if r.ok && !r.clash { SettledStays(o.disk, r.disk, kids.tree, p, at); }
      }
    }
  }

  /** A source directory stands in front of something that is no directory. */
  predicate Clashing(fs: Disk, t: Tree, dst: Path) {
    t.Dir? && dst in fs && (fs[dst] != DirNode || KidsClash(fs, t.kids, dst))
  }

  predicate KidsClash(fs: Disk, kids: Kids, dst: Path) {
    kids.Cons? && (Clashing(fs, kids.tree, dst + [kids.name]) || KidsClash(fs, kids.rest, dst))
  }

  lemma {:induction false} ClashStays(fs: Disk, fs': Disk, t: Tree, dst: Path)
    requires Extends(fs, fs') && Clashing(fs, t, dst)
    ensures Clashing(fs', t, dst)
    decreases t, 1
  {
    if fs[dst] == DirNode { KidsClashStays(fs, fs', t.kids, dst); }
  }

  lemma {:induction false} KidsClashStays(fs: Disk, fs': Disk, kids: Kids, dst: Path)
    requires Extends(fs, fs') && KidsClash(fs, kids, dst)
    ensures KidsClash(fs', kids, dst)
    decreases kids, 2
  {
    if Clashing(fs, kids.tree, dst + [kids.name]) {
      ClashStays(fs, fs', kids.tree, dst + [kids.name]);
    } else {
      KidsClashStays(fs, fs', kids.rest, dst);
    }
  }

  /** A clash that was overcome has put a copy under a new name, and is still there. */
  lemma {:induction false} ClashGrows(fs: Disk, t: Tree, dst: Path, at: Target)
    requires Inside(dst, at) && WellFormed(fs) && Proper(t)
    ensures var o := Migrate(fs, t, dst, at); o.ok && o.clash ==> o.disk != fs && Clashing(o.disk, t, dst)
    decreases t, 1
  {
    MigrateKeeps(fs, t, dst, at);
    match Lstat(fs, dst)
    case Blocked =>
    case Absent => CopyMirrors(fs, t, dst, at);
    case Found(n) =>
      if t.Dir? {
        if n == DirNode {
          KidsClashGrows(fs, t.kids, dst, at);
        } else {
          var s := FindSlot(fs, t, dst, at, 0);
          if s.Free? { CopyMirrors(fs, t, ConflictName(dst, at, s.attempt), at); }
        }
      }
  }

  lemma {:induction false} KidsClashGrows(fs: Disk, kids: Kids, dst: Path, at: Target)
    requires Within(dst, at) && WellFormed(fs) && ProperKids(kids) && dst in fs
    ensures var o := MigrateKids(fs, kids, dst, at); o.ok && o.clash ==> o.disk != fs && KidsClash(o.disk, kids, dst)
    decreases kids, 2
  {
    if kids.Cons? {
      var p := dst + [kids.name];
      MigrateKeeps(fs, kids.tree, p, at);
      ClashGrows(fs, kids.tree, p, at);
      var o := Migrate(fs, kids.tree, p, at);
      if o.ok {
        KidsKeep(o.disk, kids.rest, dst, at);
        KidsClashGrows(o.disk, kids.rest, dst, at);
        var r := MigrateKids(o.disk, kids.rest, dst, at);
        if r.ok && r.disk == fs { assert o.disk == fs; }
        if r.ok && o.clash { ClashStays(o.disk, r.disk, kids.tree, p); }
      }
    }
  }

  /** A clash is met on every successful pass. */
  lemma {:induction false} ClashIsMet(fs: Disk, t: Tree, dst: Path, at: Target)
    requires Inside(dst, at) && WellFormed(fs) && Proper(t) && Clashing(fs, t, dst)
    ensures var o := Migrate(fs, t, dst, at); o.ok ==> o.clash
    decreases t, 1
  {
    assert Rooted(fs, dst);
    if fs[dst] == DirNode { KidsClashIsMet(fs, t.kids, dst, at); }
  }

  lemma {:induction false} KidsClashIsMet(fs: Disk, kids: Kids, dst: Path, at: Target)
    requires Within(dst, at) && WellFormed(fs) && ProperKids(kids) && dst in fs && KidsClash(fs, kids, dst)
    ensures var o := MigrateKids(fs, kids, dst, at); o.ok ==> o.clash
    decreases kids, 2
  {
    var p := dst + [kids.name];
    if Clashing(fs, kids.tree, p) {
      ClashIsMet(fs, kids.tree, p, at);
    } else {
      MigrateKeeps(fs, kids.tree, p, at);
      var o := Migrate(fs, kids.tree, p, at);
      if o.ok {
        KidsClashStays(fs, o.disk, kids.rest, dst);
        KidsClashIsMet(o.disk, kids.rest, dst, at);
      }
    }
  }

  // ---------- the whole directory ----------

  /** The place of a top-level entry: conf.d never enters the live tree. */
  function HomeOf(name: string, at: Target): (r: Path)
    ensures Inside(r, at)
  {
    if name == "conf.d" then at.Conflicts() + [name] else at.Live() + [name]
  }

  function MigrateTop(fs: Disk, kids: Kids, at: Target): Outcome
    decreases kids
  {
    match kids
    case Nil => Outcome(fs, true, false)
    case Cons(name, t, rest) =>
      var o := Migrate(fs, t, HomeOf(name, at), at);
      if !o.ok then o
      else
        var r := MigrateTop(o.disk, rest, at);
        r.(clash := o.clash || r.clash)
  }

  /** migrateDirContents, when no call to the operating system fails by itself. */
  function MigrateDirContents(fs: Disk, kids: Kids, at: Target): Outcome {
    match MkdirAll(fs, at.Live())
    case None => Outcome(fs, false, false)
    case Some(fs') => MigrateTop(fs', kids, at)
  }

  ghost predicate TopStored(before: Disk, fs: Disk, kids: Kids, at: Target) {
    kids.Cons? ==> Stored(before, fs, kids.tree, HomeOf(kids.name, at), at) && TopStored(before, fs, kids.rest, at)
  }

  ghost predicate TopSettled(fs: Disk, kids: Kids, at: Target) {
    kids.Cons? ==> Settled(fs, kids.tree, HomeOf(kids.name, at), at) && TopSettled(fs, kids.rest, at)
  }

  predicate TopClash(fs: Disk, kids: Kids, at: Target) {
    kids.Cons? && (Clashing(fs, kids.tree, HomeOf(kids.name, at)) || TopClash(fs, kids.rest, at))
  }

  /** A new path is in the live tree but not in its conf.d, or it belongs to the conflict tree. */
  predicate MayBeNew(q: Path, at: Target) {
    || (at.Live() < q && q[|at.Live()|] != "conf.d")
    || q <= at.Conflicts() || at.Conflicts() <= q
  }

  lemma HomeIsOwn(fs: Disk, q: Path, name: string, at: Target)
    requires WellFormed(fs) && at.Live() in fs
    requires q <= HomeOf(name, at) || HomeOf(name, at) <= q || q <= at.Conflicts() || at.Conflicts() <= q
    ensures q in fs || MayBeNew(q, at)
    ensures at.Live() < q && q !in fs ==> q[|at.Live()|] == name
  {
    var home := HomeOf(name, at);
    if name == "conf.d" {
      if q <= home { Prefixes(q, at.Conflicts(), home); }
      assert q <= at.Conflicts() || at.Conflicts() <= q;
    } else {
      assert home[|at.Live()|] == name;
      if q <= home { OneStepUp(fs, q, at.Live(), name); }
    }
    if q <= at.Conflicts() || at.Conflicts() <= q { AboveOrBelow(q, at); }
  }

  lemma {:induction false} TopKeeps(fs: Disk, kids: Kids, at: Target)
    requires WellFormed(fs) && ProperKids(kids) && at.Live() in fs
    ensures var o := MigrateTop(fs, kids, at);
            Extends(fs, o.disk) && WellFormed(o.disk) && (o.ok ==> TopStored(fs, o.disk, kids, at)) &&
            forall q <- o.disk :: q in fs || MayBeNew(q, at)
    decreases kids
  {
    if kids.Cons? {
      var home := HomeOf(kids.name, at);
      MigrateKeeps(fs, kids.tree, home, at);
      var o := Migrate(fs, kids.tree, home, at);
      forall q | q in o.disk
        ensures q in fs || MayBeNew(q, at)
        ensures at.Live() < q && q !in fs ==> q[|at.Live()|] == kids.name
      {
        if q !in fs { HomeIsOwn(fs, q, kids.name, at); }
      }
      if o.ok {
        TopKeeps(o.disk, kids.rest, at);
        var r := MigrateTop(o.disk, kids.rest, at);
        if r.ok {
          StoredStays(fs, o.disk, r.disk, kids.tree, home, at);
          TopEarlierBefore(fs, o.disk, r.disk, kids.rest, at);
        }
      }
    }
  }

  lemma {:induction false} TopEarlierBefore(before: Disk, later: Disk, fs: Disk, kids: Kids, at: Target)
    requires Extends(before, later) && TopStored(later, fs, kids, at)
    requires forall q <- later :: q in before || !(at.Live() < q && Named(kids, q[|at.Live()|]))
    ensures TopStored(before, fs, kids, at)
  {
    if kids.Cons? {
      var home := HomeOf(kids.name, at);
      forall q | q in later && at.Live() < q && home <= q ensures q in before {
        if kids.name == "conf.d" { Apart(q, at); } else { assert q[|at.Live()|] == home[|at.Live()|] == kids.name; }
      }
      EarlierBefore(before, later, fs, kids.tree, home, at);
      TopEarlierBefore(before, later, fs, kids.rest, at);
    }
  }

  lemma {:induction false} TopSettles(fs: Disk, kids: Kids, at: Target)
    requires WellFormed(fs) && ProperKids(kids) && at.Live() in fs
    ensures var o := MigrateTop(fs, kids, at); o.ok && !o.clash ==> TopSettled(o.disk, kids, at)
    decreases kids
  {
    if kids.Cons? {
      var home := HomeOf(kids.name, at);
      MigrateKeeps(fs, kids.tree, home, at);
      MigrateSettles(fs, kids.tree, home, at);
      var o := Migrate(fs, kids.tree, home, at);
      if o.ok && !o.clash {
        TopKeeps(o.disk, kids.rest, at);
        TopSettles(o.disk, kids.rest, at);
        var r := MigrateTop(o.disk, kids.rest, at);
        if r.ok && !r.clash { SettledStays(o.disk, r.disk, kids.tree, home, at); }
      }
    }
  }

  lemma {:induction false} TopSettledIsLeftAlone(fs: Disk, kids: Kids, at: Target)
    requires WellFormed(fs) && TopSettled(fs, kids, at)
    ensures MigrateTop(fs, kids, at).disk == fs
  {
    if kids.Cons? {
      SettledIsLeftAlone(fs, kids.tree, HomeOf(kids.name, at), at);
      TopSettledIsLeftAlone(fs, kids.rest, at);
    }
  }

  lemma {:induction false} TopClashStays(fs: Disk, fs': Disk, kids: Kids, at: Target)
    requires Extends(fs, fs') && TopClash(fs, kids, at)
    ensures TopClash(fs', kids, at)
  {
    if Clashing(fs, kids.tree, HomeOf(kids.name, at)) {
      ClashStays(fs, fs', kids.tree, HomeOf(kids.name, at));
    } else {
      TopClashStays(fs, fs', kids.rest, at);
    }
  }

  lemma {:induction false} TopClashGrows(fs: Disk, kids: Kids, at: Target)
    requires WellFormed(fs) && ProperKids(kids) && at.Live() in fs
    ensures var o := MigrateTop(fs, kids, at); o.ok && o.clash ==> o.disk != fs && TopClash(o.disk, kids, at)
    decreases kids
  {
    if kids.Cons? {
      var home := HomeOf(kids.name, at);
      MigrateKeeps(fs, kids.tree, home, at);
      ClashGrows(fs, kids.tree, home, at);
      var o := Migrate(fs, kids.tree, home, at);
      if o.ok {
        TopKeeps(o.disk, kids.rest, at);
        TopClashGrows(o.disk, kids.rest, at);
        var r := MigrateTop(o.disk, kids.rest, at);
        if r.ok && r.disk == fs { assert o.disk == fs; }
        if r.ok && o.clash { ClashStays(o.disk, r.disk, kids.tree, home); }
      }
    }
  }

  lemma {:induction false} TopClashIsMet(fs: Disk, kids: Kids, at: Target)
    requires WellFormed(fs) && ProperKids(kids) && at.Live() in fs && TopClash(fs, kids, at)
    ensures var o := MigrateTop(fs, kids, at); o.ok ==> o.clash
    decreases kids
  {
    var home := HomeOf(kids.name, at);
    if Clashing(fs, kids.tree, home) {
      ClashIsMet(fs, kids.tree, home, at);
    } else {
      MigrateKeeps(fs, kids.tree, home, at);
      var o := Migrate(fs, kids.tree, home, at);
      if o.ok {
        TopClashStays(fs, o.disk, kids.rest, at);
        TopClashIsMet(o.disk, kids.rest, at);
      }
    }
  }

  /** The source holds this regular file or symbolic link under these names. */
  predicate Holds(t: Tree, names: Path, n: Node) {
    if names == [] then SameEntry(t, n) else t.Dir? && KidsHold(t.kids, names, n)
  }

  predicate KidsHold(kids: Kids, names: Path, n: Node)
    requires names != []
  {
    kids.Cons? && ((kids.name == names[0] && Holds(kids.tree, names[1..], n)) || KidsHold(kids.rest, names, n))
  }

  lemma {:induction false} MirroredIsFound(fs: Disk, t: Tree, p: Path, names: Path, n: Node)
    requires Mirrored(fs, t, p) && Holds(t, names, n)
    ensures p + names in fs && fs[p + names] == n
    decreases t, 1
  {
    if names == [] {
      assert p + names == p;
    } else {
      KidsMirroredAreFound(fs, t.kids, p, names, n);
    }
  }

  lemma {:induction false} KidsMirroredAreFound(fs: Disk, kids: Kids, p: Path, names: Path, n: Node)
    requires names != [] && KidsMirrored(fs, kids, p) && KidsHold(kids, names, n)
    ensures p + names in fs && fs[p + names] == n
    decreases kids, 2
  {
    if kids.name == names[0] && Holds(kids.tree, names[1..], n) {
      MirroredIsFound(fs, kids.tree, p + [kids.name], names[1..], n);
      assert p + [kids.name] + names[1..] == p + names;
    } else {
      KidsMirroredAreFound(fs, kids.rest, p, names, n);
    }
  }

  lemma {:induction false} StoredIsFound(before: Disk, fs: Disk, t: Tree, dst: Path, at: Target, names: Path, n: Node)
    returns (p: Path)
    requires Inside(dst, at) && Stored(before, fs, t, dst, at) && Holds(t, names, n)
    ensures p in fs && fs[p] == n && (p == dst + names || at.Conflicts() < p)
    decreases t, 1
  {
    if at.Live() < dst && dst !in before {
      MirroredIsFound(fs, t, dst, names, n);
      p := dst + names;
    } else if dst in fs && fs[dst] == NodeOf(t) && (t.Dir? ==> KidsStored(before, fs, t.kids, dst, at)) {
      if names == [] {
        assert dst + names == dst;
        p := dst;
      } else {
        p := KidsStoredAreFound(before, fs, t.kids, dst, at, names, n);
      }
    } else {
      var k: nat :| Mirrored(fs, t, ConflictName(dst, at, k));
      MirroredIsFound(fs, t, ConflictName(dst, at, k), names, n);
      p := ConflictName(dst, at, k) + names;
    }
  }

  lemma {:induction false} KidsStoredAreFound(before: Disk, fs: Disk, kids: Kids, dst: Path, at: Target, names: Path,
                                              n: Node)
    returns (p: Path)
    requires names != [] && Within(dst, at) && KidsStored(before, fs, kids, dst, at) && KidsHold(kids, names, n)
    ensures p in fs && fs[p] == n && (p == dst + names || at.Conflicts() < p)
    decreases kids, 2
  {
    if kids.name == names[0] && Holds(kids.tree, names[1..], n) {
      p := StoredIsFound(before, fs, kids.tree, dst + [kids.name], at, names[1..], n);
      assert dst + [kids.name] + names[1..] == dst + names;
    } else {
      p := KidsStoredAreFound(before, fs, kids.rest, dst, at, names, n);
    }
  }

  lemma {:induction false} TopStoredIsFound(before: Disk, fs: Disk, kids: Kids, at: Target, names: Path, n: Node)
    returns (p: Path)
    requires names != [] && TopStored(before, fs, kids, at) && KidsHold(kids, names, n)
    ensures p in fs && fs[p] == n
    ensures (p == at.Live() + names && names[0] != "conf.d") || at.Conflicts() < p
    decreases kids
  {
    if kids.name == names[0] && Holds(kids.tree, names[1..], n) {
      p := StoredIsFound(before, fs, kids.tree, HomeOf(kids.name, at), at, names[1..], n);
      assert at.Live() + [kids.name] + names[1..] == at.Live() + names;
    } else {
      p := TopStoredIsFound(before, fs, kids.rest, at, names, n);
    }
  }

  /** Kept somewhere: at its own place in the live tree, or in the conflict tree; an entry
      of conf.d only in the conflict tree. */
  ghost predicate KeptSomewhere(fs: Disk, names: Path, n: Node, at: Target)
    requires names != []
  {
    exists p :: p in fs && fs[p] == n && ((p == at.Live() + names && names[0] != "conf.d") || at.Conflicts() < p)
  }

  /** The migration overwrites and removes nothing and leaves conf.d of the live tree alone;
      after a successful one every regular file and link of the source is kept. */
  lemma NothingIsLost(fs: Disk, kids: Kids, at: Target)
    requires WellFormed(fs) && ProperKids(kids)
    ensures var o := MigrateDirContents(fs, kids, at);
            Extends(fs, o.disk) && WellFormed(o.disk) &&
            (forall q <- o.disk :: q in fs || q <= at.Live() || MayBeNew(q, at)) &&
            (o.ok ==>
               forall names, n :: names != [] && KidsHold(kids, names, n) ==> KeptSomewhere(o.disk, names, n, at))
  {
    MkdirAllExtends(fs, at.Live());
    var made := MkdirAll(fs, at.Live());
    if made.Some? {
      TopKeeps(made.value, kids, at);
      var o := MigrateDirContents(fs, kids, at);
      if o.ok {
        forall names, n | names != [] && KidsHold(kids, names, n) ensures KeptSomewhere(o.disk, names, n, at) {
          var p := TopStoredIsFound(made.value, o.disk, kids, at, names, n);
        }
      }
    }
  }

  lemma {:induction false} TopSettledHasNoClash(fs: Disk, kids: Kids, at: Target)
    requires TopSettled(fs, kids, at)
    ensures !TopClash(fs, kids, at)
  {
    if kids.Cons? {
      SettledHasNoClash(fs, kids.tree, HomeOf(kids.name, at), at);
      TopSettledHasNoClash(fs, kids.rest, at);
    }
  }

  /** After a pass that succeeded, a second one that succeeds leaves the disk as it is exactly
      if no source directory stands in front of something that is no directory. Without such
      a clash it does so in any case. */
  lemma SecondPass(fs: Disk, kids: Kids, at: Target)
    requires WellFormed(fs) && ProperKids(kids) && MigrateDirContents(fs, kids, at).ok
    ensures var disk := MigrateDirContents(fs, kids, at).disk;
            var second := MigrateDirContents(disk, kids, at);
            (!TopClash(disk, kids, at) ==> second.disk == disk) &&
            (second.ok ==> (second.disk == disk <==> !TopClash(disk, kids, at)))
  {
    MkdirAllExtends(fs, at.Live());
    var start := MkdirAll(fs, at.Live()).value;
    var first := MigrateDirContents(fs, kids, at);
    TopKeeps(start, kids, at);
    assert MkdirAll(first.disk, at.Live()) == Some(first.disk);
    if first.clash {
      TopClashGrows(start, kids, at);
      TopClashIsMet(first.disk, kids, at);
      TopClashGrows(first.disk, kids, at);
    } else {
      TopSettles(start, kids, at);
      TopSettledHasNoClash(first.disk, kids, at);
      TopSettledIsLeftAlone(first.disk, kids, at);
    }
  }

  lemma OpenBeside(fs: Disk, c: Path, at: Target)
    requires WellFormed(fs) && at.parent in fs && fs[at.parent] == DirNode &&
             (at.Conflicts() in fs ==> fs[at.Conflicts()] == DirNode)
    requires |c| == |at.parent| + 2 && c[..|c| - 1] == at.Conflicts()
    ensures Open(fs, c)
  {
    assert Rooted(fs, at.parent);
    forall n | 0 <= n < |c| && c[..n] in fs ensures fs[c[..n]] == DirNode {
      if n < |c| - 1 {
        assert c[..n] == at.Conflicts()[..n] == at.parent[..n];
        if n == |at.parent| { assert c[..n] == at.parent; }
      }
    }
  }

  /** Nothing blocks the conflict names of a top-level entry. */
  lemma {:induction false} NotStuck(fs: Disk, t: Tree, name: string, at: Target, attempt: nat)
    requires WellFormed(fs) && at.parent in fs && fs[at.parent] == DirNode &&
             (at.Conflicts() in fs ==> fs[at.Conflicts()] == DirNode)
    requires forall i :: 0 <= i < attempt ==> ConflictName(at.Live() + [name], at, i) in fs
    ensures !FindSlot(fs, t, at.Live() + [name], at, attempt).Stuck?
    decreases |fs| + 1 - attempt
  {
    hide ConflictName, Open;
    var dst := at.Live() + [name];
    TakenNames(fs, dst, at, attempt);
    var c := ConflictName(dst, at, attempt);
    TopConflict(name, at, attempt);
    OpenBeside(fs, c, at);
    assert Lstat(fs, c) != Blocked;
    if Lstat(fs, c).Found? && !SameEntry(t, Lstat(fs, c).node) { NotStuck(fs, t, name, at, attempt + 1); }
  }

  lemma TopConflict(name: string, at: Target, attempt: nat)
    ensures var c := ConflictName(at.Live() + [name], at, attempt);
            |c| == |at.parent| + 2 && c[..|c| - 1] == at.Conflicts()
  {
  }

  /** A source directory in front of a file: every pass succeeds and adds one more copy. */
  lemma EveryPassAddsACopy(fs: Disk, at: Target)
    requires WellFormed(fs) && at.Live() in fs && fs[at.Live()] == DirNode
    requires at.Live() + ["x"] in fs && fs[at.Live() + ["x"]].FileNode? &&
             (at.Conflicts() in fs ==> fs[at.Conflicts()] == DirNode)
    ensures var kids := Cons("x", Dir(Nil), Nil);
            var first := MigrateDirContents(fs, kids, at);
            var second := MigrateDirContents(first.disk, kids, at);
            first.ok && second.ok && fs != first.disk && first.disk != second.disk
  {
    var kids := Cons("x", Dir(Nil), Nil);
    OnePassAddsACopy(fs, at);
    NothingIsLost(fs, kids, at);
    OnePassAddsACopy(MigrateDirContents(fs, kids, at).disk, at);
  }

  lemma OnePassAddsACopy(fs: Disk, at: Target)
    requires WellFormed(fs) && at.Live() in fs && fs[at.Live()] == DirNode
    requires at.Live() + ["x"] in fs && fs[at.Live() + ["x"]].FileNode? &&
             (at.Conflicts() in fs ==> fs[at.Conflicts()] == DirNode)
    ensures var o := MigrateDirContents(fs, Cons("x", Dir(Nil), Nil), at);
            o.ok && o.disk != fs && at.Conflicts() in o.disk && o.disk[at.Conflicts()] == DirNode
  {
    hide ConflictName;
    var t, dst := Dir(Nil), at.Live() + ["x"];
    assert Rooted(fs, at.Live()) && at.Live()[..|at.parent|] == at.parent;
    assert Rooted(fs, dst);
    assert Lstat(fs, dst) == Found(fs[dst]);
    NotStuck(fs, t, "x", at, 0);
    var s := FindSlot(fs, t, dst, at, 0);
    var c := ConflictName(dst, at, s.attempt);
    assert c[..|c| - 1] == at.Conflicts() by { TopConflict("x", at, s.attempt); }
    assert at.Conflicts()[..|at.Conflicts()| - 1] == at.parent;
    var made := MkdirAll(fs, at.Conflicts());
    assert Lstat(fs, c) == Absent && c !in fs && c != at.Conflicts();
    assert MkdirAll(fs, at.parent) == Some(fs);
    assert made == Some(if at.Conflicts() in fs then fs else fs[at.Conflicts() := DirNode]);
    assert HomeOf("x", at) == dst;
    assert Migrate(fs, t, dst, at).ok;
    assert MigrateTop(fs, Cons("x", t, Nil), at).disk == made.value[c := DirNode];
  }

  // ---------- the code, with calls that may fail ----------

  /** The disk as init.go changes it. Any call to the operating system may fail on its own;
      the step then stops, leaving what it has done so far. */
  class Host {
    var disk: Disk
    const at: Target
    /** Some call has failed. */
    ghost var failed: bool

    constructor (disk: Disk, at: Target)
      ensures this.disk == disk && this.at == at && !failed
    {
      this.disk := disk;
      this.at := at;
      this.failed := false;
    }

    /** A call to the operating system. */
    method Call() returns (fault: bool)
      modifies this`failed
      ensures failed == (old(failed) || fault)
    {
      fault := *;
      failed := failed || fault;
    }

    method MakeDirs(p: Path) returns (ok: bool)
      requires WellFormed(disk)
      modifies this
      ensures Extends(old(disk), disk) && WellFormed(disk)
      ensures forall q <- disk :: q in old(disk) || q <= p
      ensures ok ==> MkdirAll(old(disk), p) == Some(disk)
      ensures (old(failed) ==> failed) && (!failed ==> (ok <==> MkdirAll(old(disk), p).Some?))
      decreases |p|
    {
      if p in disk { return disk[p] == DirNode; }
      ok := MakeDirs(p[..|p| - 1]);
      if !ok { return false; }
      var fault := Call();
      if fault { return false; }
      MkdirAllExtends(old(disk), p[..|p| - 1]);
      AddWellFormed(disk, p, DirNode);
      disk := disk[p := DirNode];
    }

    method CopyEntry(t: Tree, dst: Path) returns (ok: bool)
      requires WellFormed(disk) && Proper(t) && Inside(dst, at) && Lstat(disk, dst) == Absent
      modifies this
      ensures Extends(old(disk), disk) && WellFormed(disk)
      ensures ok ==> Copy(old(disk), t, dst, at).ok && disk == Copy(old(disk), t, dst, at).disk
      ensures (old(failed) ==> failed) && (!failed ==> (ok <==> Copy(old(disk), t, dst, at).ok))
      decreases t, 0
    {
      if t.Special? { return true; }
      ok := MakeDirs(dst[..|dst| - 1]);
      if !ok { return false; }
      var fault := Call();
      if fault { return false; }
      MkdirAllExtends(old(disk), dst[..|dst| - 1]);
      match t
      case Link(target) =>
        AddWellFormed(disk, dst, NodeOf(t));
        disk := disk[dst := LinkNode(target)];
      case Dir(kids) =>
        AddWellFormed(disk, dst, NodeOf(t));
        disk := disk[dst := DirNode];
        ok := MergeDirContents(kids, dst);
      case File(data) =>
        // A copy that breaks off is removed, unless removing it fails as well.
        var short := Call();
        var left: bool := *;
        if short && !left { return false; }
        var partial: string := *;
        var written := if short then partial else data;
        AddWellFormed(disk, dst, FileNode(written));
        disk := disk[dst := FileNode(written)];
        ok := !short;
      if ok {
        var late := Call();
        ok := !late;
      }
    }

    method MergeDirContents(kids: Kids, dst: Path) returns (ok: bool)
      requires WellFormed(disk) && ProperKids(kids) && Within(dst, at)
      modifies this
      ensures Extends(old(disk), disk) && WellFormed(disk)
      ensures ok ==> MigrateKids(old(disk), kids, dst, at).ok && disk == MigrateKids(old(disk), kids, dst, at).disk
      ensures (old(failed) ==> failed) && (!failed ==> (ok <==> MigrateKids(old(disk), kids, dst, at).ok))
      decreases kids, 2
    {
      var rest := kids;
      while rest.Cons?
        invariant rest == kids || rest < kids
        invariant WellFormed(disk) && ProperKids(rest) && Extends(old(disk), disk)
        invariant MigrateKids(disk, rest, dst, at).ok <==> MigrateKids(old(disk), kids, dst, at).ok
        invariant old(failed) ==> failed
        invariant MigrateKids(disk, rest, dst, at).disk == MigrateKids(old(disk), kids, dst, at).disk
        decreases rest
      {
        ok := MigrateEntry(rest.tree, dst + [rest.name]);
        if !ok { return; }
        rest := rest.rest;
      }
      return true;
    }

    method MigrateEntry(t: Tree, dst: Path) returns (ok: bool)
      requires WellFormed(disk) && Proper(t) && Inside(dst, at)
      modifies this
      ensures Extends(old(disk), disk) && WellFormed(disk)
      ensures ok ==> Migrate(old(disk), t, dst, at).ok && disk == Migrate(old(disk), t, dst, at).disk
      ensures (old(failed) ==> failed) && (!failed ==> (ok <==> Migrate(old(disk), t, dst, at).ok))
      decreases t, 1, 1
    {
      var fault := Call();
      if fault { return false; }
      var destination := Lstat(disk, dst);
      if destination == Absent {
        ok := CopyEntry(t, dst);
      } else if destination == Blocked {
        ok := false;
      } else if t.Dir? && destination.node == DirNode {
        ok := MergeDirContents(t.kids, dst);
      } else if SameEntry(t, destination.node) {
        ok := true;
      } else {
        ok := PreserveConflict(t, dst);
      }
    }

    method PreserveConflict(t: Tree, dst: Path) returns (ok: bool)
      requires WellFormed(disk) && Proper(t) && Inside(dst, at)
      requires Lstat(disk, dst).Found? && !SameEntry(t, disk[dst]) && !(t.Dir? && disk[dst] == DirNode)
      modifies this
      ensures Extends(old(disk), disk) && WellFormed(disk)
      ensures ok ==> Migrate(old(disk), t, dst, at).ok && disk == Migrate(old(disk), t, dst, at).disk
      ensures (old(failed) ==> failed) && (!failed ==> (ok <==> Migrate(old(disk), t, dst, at).ok))
      decreases t, 1, 0
    {
      hide ConflictName;
      var attempt := 0;
      while true
        invariant disk == old(disk) && (old(failed) ==> failed)
        invariant forall i :: 0 <= i < attempt ==> ConflictName(dst, at, i) in disk
        invariant FindSlot(disk, t, dst, at, attempt) == FindSlot(disk, t, dst, at, 0)
        decreases |disk| + 1 - attempt
      {
        TakenNames(disk, dst, at, attempt);
        var candidate := ConflictName(dst, at, attempt);
        var fault := Call();
        if fault { return false; }
        var found := Lstat(disk, candidate);
        if found == Absent {
          ok := CopyEntry(t, candidate);
          return;
        }
        if found == Blocked { return false; }
        if SameEntry(t, found.node) { return true; }
        attempt := attempt + 1;
      }
    }

    /** Whatever fails, nothing that was there is changed; a success is the pass whose properties are
        proved above, and if no call fails it succeeds exactly if that does. */
    method MigrateInto(kids: Kids) returns (ok: bool)
      requires WellFormed(disk) && ProperKids(kids)
      modifies this
      ensures Extends(old(disk), disk) && WellFormed(disk)
      ensures ok ==> MigrateDirContents(old(disk), kids, at).ok && disk == MigrateDirContents(old(disk), kids, at).disk
      ensures (old(failed) ==> failed) && (!failed ==> (ok <==> MigrateDirContents(old(disk), kids, at).ok))
    {
      ok := MakeDirs(at.Live());
      if !ok { return false; }
      var fault := Call();
      if fault { return false; }
      ghost var start := disk;
      var rest := kids;
      while rest.Cons?
        invariant WellFormed(disk) && ProperKids(rest) && Extends(old(disk), disk)
        invariant MigrateTop(disk, rest, at).ok <==> MigrateTop(start, kids, at).ok
        invariant old(failed) ==> failed
        invariant MigrateTop(disk, rest, at).disk == MigrateTop(start, kids, at).disk
        decreases rest
      {
        ok := MigrateEntry(rest.tree, HomeOf(rest.name, at));
        if !ok { return; }
        rest := rest.rest;
      }
      return true;
    }
  }
}
