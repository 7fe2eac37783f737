/** When merging a directory into persistent storage succeeds (bootstrap/init.go), if no call to the
    operating system fails by itself. */
module MergeSuccess {
  import opened Text
  import opened TreeMerge

  // ---------- what can be in the way ----------

  lemma {:induction false} MkdirAllIff(fs: Disk, p: Path)
    requires WellFormed(fs)
    ensures MkdirAll(fs, p).Some? <==> Open(fs, p) && (p in fs ==> fs[p] == DirNode)
    decreases |p|
  {
    if p in fs {
      assert Rooted(fs, p);
    } else {
      var up := p[..|p| - 1];
      MkdirAllIff(fs, up);
      MkdirAllExtends(fs, up);
      OpenStep(fs, p);
    }
  }

  lemma OpenStep(fs: Disk, p: Path)
    requires p != []
    ensures var up := p[..|p| - 1]; Open(fs, p) <==> Open(fs, up) && (up in fs ==> fs[up] == DirNode)
  {
    var up := p[..|p| - 1];
    assert forall n :: 0 <= n < |up| ==> up[..n] == p[..n];
    assert p[..|p| - 1] == up;
  }

  /** A name and the conflict names for it have the same directories above them. */
  lemma OpenAlike(fs: Disk, p: Path, q: Path)
    requires |p| == |q| > 0 && p[..|p| - 1] == q[..|q| - 1]
    ensures Open(fs, p) <==> Open(fs, q)
  {
    OpenStep(fs, p);
    OpenStep(fs, q);
  }

  /** The search for a conflict name is stuck exactly if something that is no directory is above them. */
  lemma {:induction false} StuckIff(fs: Disk, t: Tree, dst: Path, at: Target, attempt: nat)
    requires Inside(dst, at) && forall i :: 0 <= i < attempt ==> ConflictName(dst, at, i) in fs
    ensures FindSlot(fs, t, dst, at, attempt).Stuck? <==> !Open(fs, ConflictBase(dst, at))
    decreases |fs| + 1 - attempt
  {
    TakenNames(fs, dst, at, attempt);
    var base, c := ConflictBase(dst, at), ConflictName(dst, at, attempt);
    assert c == Candidate(base, attempt);
    OpenAlike(fs, base, c);
    hide ConflictName, Open, ConflictBase, Candidate;
    if Lstat(fs, c).Found? && !SameEntry(t, Lstat(fs, c).node) { StuckIff(fs, t, dst, at, attempt + 1); }
  }

  // ---------- copying always succeeds where nothing is in the way ----------

  lemma {:induction false} CopySucceeds(fs: Disk, t: Tree, dst: Path, at: Target)
    requires Inside(dst, at) && WellFormed(fs) && Proper(t) && Lstat(fs, dst) == Absent
    ensures Copy(fs, t, dst, at).ok
    decreases t, 0
  {
    if !t.Special? {
      var up := dst[..|dst| - 1];
      OpenStep(fs, dst);
      MkdirAllIff(fs, up);
      MkdirAllExtends(fs, up);
      var made := MkdirAll(fs, up).value;
      if t.Dir? {
        AddWellFormed(made, dst, DirNode);
        var fs' := made[dst := DirNode];
        forall q | q in fs' && dst <= q ensures q == dst {
          if q in made { OnTheWay(made, dst, q); }
        }
        KidsSucceed(fs', t.kids, dst, at);
      }
    }
  }

  lemma {:induction false} KidsSucceed(fs: Disk, kids: Kids, dst: Path, at: Target)
    requires Within(dst, at) && WellFormed(fs) && ProperKids(kids) && dst in fs && fs[dst] == DirNode
    requires forall q <- fs :: dst < q ==> !Named(kids, q[|dst|])
    ensures MigrateKids(fs, kids, dst, at).ok
    decreases kids, 2
  {
    if kids.Cons? {
      var p := dst + [kids.name];
      FreshPlace(fs, kids, dst);
      CopySucceeds(fs, kids.tree, p, at);
      CopyMirrors(fs, kids.tree, p, at);
      var o := Migrate(fs, kids.tree, p, at);
      assert o == Copy(fs, kids.tree, p, at);
      forall q | q in o.disk && dst < q ensures !Named(kids.rest, q[|dst|]) {
        if q !in fs {
          if q <= p { OneStepUp(fs, q, dst, kids.name); }
          assert q[|dst|] == kids.name;
        }
      }
      KidsSucceed(o.disk, kids.rest, dst, at);
    }
  }

  lemma FreshPlace(fs: Disk, kids: Kids, dst: Path)
    requires WellFormed(fs) && kids.Cons? && dst in fs && fs[dst] == DirNode
    requires forall q <- fs :: dst < q ==> !Named(kids, q[|dst|])
    ensures Lstat(fs, dst + [kids.name]) == Absent
  {
    var p := dst + [kids.name];
    assert dst < p && p[|dst|] == kids.name;
    PlaceIsOpen(fs, p);
  }

  lemma PlaceIsOpen(fs: Disk, p: Path)
    requires WellFormed(fs) && p != [] && p[..|p| - 1] in fs && fs[p[..|p| - 1]] == DirNode
    ensures Open(fs, p)
  {
    assert Rooted(fs, p[..|p| - 1]);
    OpenStep(fs, p);
  }

  // ---------- the condition ----------

  /** Nothing is in the way of an entry: its place is not below something that is no directory, and if the
      place is taken by something else neither are its conflict names. */
  predicate Fits(fs: Disk, t: Tree, dst: Path, at: Target)
    requires Inside(dst, at)
    decreases t, 1
  {
    && Open(fs, dst)
    && (dst in fs ==>
          if t.Dir? && fs[dst] == DirNode then KidsFit(fs, t.kids, dst, at)
          else SameEntry(t, fs[dst]) || Open(fs, ConflictBase(dst, at)))
  }

  /** Entry by entry, on the disk as the ones before it leave it. */
  predicate KidsFit(fs: Disk, kids: Kids, dst: Path, at: Target)
    requires Within(dst, at)
    decreases kids, 2
  {
    kids.Cons? ==>
      Fits(fs, kids.tree, dst + [kids.name], at) &&
      KidsFit(Migrate(fs, kids.tree, dst + [kids.name], at).disk, kids.rest, dst, at)
  }

  predicate TopFits(fs: Disk, kids: Kids, at: Target)
    decreases kids
  {
    kids.Cons? ==>
      Fits(fs, kids.tree, HomeOf(kids.name, at), at) &&
      TopFits(Migrate(fs, kids.tree, HomeOf(kids.name, at), at).disk, kids.rest, at)
  }

  lemma {:induction false} MigrateSucceedsIff(fs: Disk, t: Tree, dst: Path, at: Target)
    requires Inside(dst, at) && WellFormed(fs) && Proper(t)
    ensures Migrate(fs, t, dst, at).ok <==> Fits(fs, t, dst, at)
    decreases t, 1
  {
    hide Open, ConflictName, ConflictBase;
    match Lstat(fs, dst)
    case Blocked =>
    case Absent => CopySucceeds(fs, t, dst, at);
    case Found(n) =>
      if t.Dir? && n == DirNode {
        KidsSucceedIff(fs, t.kids, dst, at);
      } else if !SameEntry(t, n) {
        StuckIff(fs, t, dst, at, 0);
        var s := FindSlot(fs, t, dst, at, 0);
        if s.Free? { CopySucceeds(fs, t, ConflictName(dst, at, s.attempt), at); }
      }
  }

  lemma {:induction false} KidsSucceedIff(fs: Disk, kids: Kids, dst: Path, at: Target)
    requires Within(dst, at) && WellFormed(fs) && ProperKids(kids)
    ensures MigrateKids(fs, kids, dst, at).ok <==> KidsFit(fs, kids, dst, at)
    decreases kids, 2
  {
    if kids.Cons? {
      var p := dst + [kids.name];
      MigrateSucceedsIff(fs, kids.tree, p, at);
      MigrateKeeps(fs, kids.tree, p, at);
      KidsSucceedIff(Migrate(fs, kids.tree, p, at).disk, kids.rest, dst, at);
    }
  }

  lemma {:induction false} TopSucceedsIff(fs: Disk, kids: Kids, at: Target)
    requires WellFormed(fs) && ProperKids(kids)
    ensures MigrateTop(fs, kids, at).ok <==> TopFits(fs, kids, at)
    decreases kids
  {
    if kids.Cons? {
      var home := HomeOf(kids.name, at);
      MigrateSucceedsIff(fs, kids.tree, home, at);
      MigrateKeeps(fs, kids.tree, home, at);
      TopSucceedsIff(Migrate(fs, kids.tree, home, at).disk, kids.rest, at);
    }
  }

  /** The disk with the live directory, if that can be made. */
  function WithLive(fs: Disk, at: Target): Disk {
    match MkdirAll(fs, at.Live()) case None => fs case Some(made) => made
  }

  /** A pass succeeds exactly if the live directory can be made, which is if nothing on its path is
      anything but a directory, and nothing is in the way of any entry. */
  lemma PassSucceedsIff(fs: Disk, kids: Kids, at: Target)
    requires WellFormed(fs) && ProperKids(kids)
    ensures MigrateDirContents(fs, kids, at).ok <==>
              (forall n :: 0 <= n <= |at.Live()| && at.Live()[..n] in fs ==> fs[at.Live()[..n]] == DirNode) &&
              TopFits(WithLive(fs, at), kids, at)
  {
    MkdirAllIff(fs, at.Live());
    MkdirAllExtends(fs, at.Live());
    assert at.Live()[..|at.Live()|] == at.Live();
    if MkdirAll(fs, at.Live()).Some? { TopSucceedsIff(MkdirAll(fs, at.Live()).value, kids, at); }
  }

  // ---------- the first pass ----------

  /** A name like those that conflict names end in. */
  predicate Marked(name: string) {
    HasSub(name, ".migrated")
  }

  predicate Plain(t: Tree) {
    t.Dir? ==> PlainKids(t.kids)
  }

  predicate PlainKids(kids: Kids) {
    kids.Cons? ==> !Marked(kids.name) && Plain(kids.tree) && PlainKids(kids.rest)
  }

  /** Below conf.d or a marked name. */
  predicate Aside(q: Path, at: Target) {
    |q| > |at.Conflicts()| &&
    (q[|at.Conflicts()|] == "conf.d" || exists i :: |at.Conflicts()| <= i < |q| && Marked(q[i]))
  }

  /** In the conflict tree everything that is no directory is aside. */
  predicate Clear(fs: Disk, at: Target) {
    forall q <- fs :: at.Conflicts() <= q && fs[q] != DirNode ==> Aside(q, at)
  }

  function ConfD(at: Target): Path {
    at.Conflicts() + ["conf.d"]
  }

  /** A place in the live tree with names that are not marked. */
  predicate PlainPlace(dst: Path, names: Path, at: Target) {
    dst == at.Live() + names && names != [] && names[0] != "conf.d" && forall n <- names :: !Marked(n)
  }

  lemma LiveIsInside(dst: Path, names: Path, at: Target)
    requires PlainPlace(dst, names, at)
    ensures at.Live() < dst && Inside(dst, at)
  {
  }

  lemma ConflictOpen(fs: Disk, dst: Path, names: Path, at: Target)
    requires WellFormed(fs) && Clear(fs, at) && at.Live() in fs && PlainPlace(dst, names, at)
    ensures Inside(dst, at) && Open(fs, ConflictBase(dst, at))
  {
    LiveIsInside(dst, names, at);
    if at.Conflicts() < dst { Apart(dst, at); }
    assert dst[|at.Live()|..] == names;
    var c, base := at.Conflicts(), ConflictBase(dst, at);
    assert base[..|base| - 1] == (c + names)[..|c + names| - 1];
    assert Rooted(fs, at.Live());
    forall n | 0 <= n < |base| && base[..n] in fs ensures fs[base[..n]] == DirNode {
      var q := base[..n];
      assert q == (c + names)[..n];
      if n < |c| {
        assert q == at.Live()[..n];
      } else {
        assert c <= q;
        assert forall i :: |c| <= i < n ==> q[i] == names[i - |c|] && names[i - |c|] in names;
      }
    }
  }

  lemma SuffixMarks(name: string, suffix: string)
    ensures Marked(name + ".migrated" + suffix)
  {
    var s := name + ".migrated" + suffix;
    assert s[|name|..][..9] == ".migrated";
    assert HasPrefix(s[|name|..], ".migrated");
  }

  lemma ConfDIsPlain()
    ensures !Marked("conf.d")
  {
    var s := "conf.d";
    forall i | 0 <= i <= |s| ensures !HasPrefix(s[i..], ".migrated") { assert |s[i..]| <= 6 && |".migrated"| == 9; }
  }

  /** The conflict names of a plain place. */
  lemma NameIsMarked(dst: Path, names: Path, at: Target, attempt: nat)
    requires PlainPlace(dst, names, at) && Inside(dst, at)
    ensures var c := ConflictName(dst, at, attempt);
            |c| == |at.Conflicts()| + |names| && Marked(c[|c| - 1]) && (|names| > 1 ==> c[|at.Conflicts()|] == names[0])
  {
    LiveIsInside(dst, names, at);
    if at.Conflicts() < dst { Apart(dst, at); }
    assert dst[|at.Live()|..] == names;
    var base, last := ConflictBase(dst, at), names[|names| - 1];
    assert base[|base| - 1] == last + ".migrated";
    assert last + ".migrated" + "" == last + ".migrated";
    SuffixMarks(last, "");
    SuffixMarks(last, "." + Decimal(attempt));
    var c := ConflictName(dst, at, attempt);
    assert c == Candidate(base, attempt);
    assert attempt > 0 ==> c[|c| - 1] == last + ".migrated" + ("." + Decimal(attempt));
    if |names| > 1 { assert c[|at.Conflicts()|] == c[..|c| - 1][|at.Conflicts()|] ==
                    base[..|base| - 1][|at.Conflicts()|]; }
  }

  /** A copy to a conflict name leaves the conflict tree clear. */
  lemma CopyAside(fs: Disk, t: Tree, dst: Path, names: Path, at: Target, attempt: nat)
    requires WellFormed(fs) && Proper(t) && Clear(fs, at) && PlainPlace(dst, names, at) && Inside(dst, at)
    requires Lstat(fs, ConflictName(dst, at, attempt)) == Absent
    ensures var o := Copy(fs, t, ConflictName(dst, at, attempt), at);
            Clear(o.disk, at) && (ConfD(at) in o.disk ==> ConfD(at) in fs)
  {
    var c, root := ConflictName(dst, at, attempt), at.Conflicts();
    NameIsMarked(dst, names, at, attempt);
    CopyMirrors(fs, t, c, at);
    CopySucceeds(fs, t, c, at);
    var o := Copy(fs, t, c, at);
    if !t.Special? { assert Rooted(o.disk, c); }
    hide ConflictName, Marked;
    forall q | q in o.disk && root <= q && o.disk[q] != DirNode ensures Aside(q, at) {
      if q !in fs {
        if q <= c { assert q == c[..|q|]; }
        assert c <= q;
        assert q[|c| - 1] == c[|c| - 1];
      }
    }
    ConfDIsPlain();
    assert ConfD(at)[|root|] == "conf.d" && |ConfD(at)| == |root| + 1;
  }

  lemma {:induction false} MigrateClear(fs: Disk, t: Tree, dst: Path, names: Path, at: Target)
    requires WellFormed(fs) && Proper(t) && Plain(t) && Clear(fs, at) && PlainPlace(dst, names, at)
    requires at.Live() in fs && dst[..|dst| - 1] in fs && fs[dst[..|dst| - 1]] == DirNode
    ensures Inside(dst, at) && Fits(fs, t, dst, at)
    ensures var o := Migrate(fs, t, dst, at); Clear(o.disk, at) && (ConfD(at) in o.disk ==> ConfD(at) in fs)
    decreases t, 1
  {
    hide ConflictName, ConflictBase, Marked, Clear;
    LiveIsInside(dst, names, at);
    PlaceIsOpen(fs, dst);
    var o := Migrate(fs, t, dst, at);
    if dst !in fs {
      CopyMirrors(fs, t, dst, at);
      LiveStaysApart(fs, o.disk, dst, at);
    } else if t.Dir? && fs[dst] == DirNode {
      KidsClear(fs, t.kids, dst, names, at);
    } else if !SameEntry(t, fs[dst]) {
      ConflictOpen(fs, dst, names, at);
      StuckIff(fs, t, dst, at, 0);
      var s := FindSlot(fs, t, dst, at, 0);
      if s.Free? { CopyAside(fs, t, dst, names, at, s.attempt); }
    }
  }

  lemma NotAbove(q: Path, at: Target)
    requires at.Conflicts() <= q
    ensures !(q <= at.Live())
  {
    Apart(q, at);
    assert |at.Conflicts()| == |at.Live()|;
  }

  /** What is added in the live tree is not in the conflict tree. */
  lemma LiveStaysApart(fs: Disk, fs': Disk, dst: Path, at: Target)
    requires Clear(fs, at) && at.Live() < dst && OnlyAround(fs, fs', dst) && Extends(fs, fs')
    ensures Clear(fs', at) && (ConfD(at) in fs' ==> ConfD(at) in fs)
  {
    forall q | q in fs' && at.Conflicts() <= q ensures q in fs {
      if q !in fs {
        if q <= dst { Prefixes(at.Live(), q, dst); }
        Apart(q, at);
        NotAbove(q, at);
      }
    }
  }

  lemma {:induction false} KidsClear(fs: Disk, kids: Kids, dst: Path, names: Path, at: Target)
    requires WellFormed(fs) && ProperKids(kids) && PlainKids(kids) && Clear(fs, at) && PlainPlace(dst, names, at)
    requires at.Live() in fs && dst in fs && fs[dst] == DirNode
    ensures Inside(dst, at) && KidsFit(fs, kids, dst, at)
    ensures var o := MigrateKids(fs, kids, dst, at); Clear(o.disk, at) && (ConfD(at) in o.disk ==> ConfD(at) in fs)
    decreases kids, 2
  {
    hide Marked, Clear;
    LiveIsInside(dst, names, at);
    if kids.Cons? {
      var p := dst + [kids.name];
      assert PlainPlace(p, names + [kids.name], at);
      assert p[..|p| - 1] == dst;
      MigrateClear(fs, kids.tree, p, names + [kids.name], at);
      MigrateKeeps(fs, kids.tree, p, at);
      MigrateSucceedsIff(fs, kids.tree, p, at);
      var o := Migrate(fs, kids.tree, p, at);
      KidsClear(o.disk, kids.rest, dst, names, at);
    }
  }

  /** conf.d goes to its place as a whole. */
  lemma ConfDClear(fs: Disk, t: Tree, at: Target)
    requires WellFormed(fs) && Proper(t) && Clear(fs, at) && at.Live() in fs && ConfD(at) !in fs
    ensures Fits(fs, t, ConfD(at), at) && Clear(Migrate(fs, t, ConfD(at), at).disk, at)
  {
    var home, root := ConfD(at), at.Conflicts();
    assert Rooted(fs, at.Live());
    assert Open(fs, at.Live());
    OpenAlike(fs, at.Live(), root);
    assert home[..|home| - 1] == root;
    OpenStep(fs, home);
    CopyMirrors(fs, t, home, at);
    CopySucceeds(fs, t, home, at);
    var o := Copy(fs, t, home, at);
    if !t.Special? { assert Rooted(o.disk, home); }
    hide Marked;
    forall q | q in o.disk && root <= q && o.disk[q] != DirNode ensures Aside(q, at) {
      if q !in fs {
        if q <= home { assert q == home[..|q|]; }
        assert home <= q;
        assert q[|root|] == home[|root|];
      }
    }
  }

  lemma {:induction false} TopClear(fs: Disk, kids: Kids, at: Target)
    requires WellFormed(fs) && ProperKids(kids) && PlainKids(kids) && Clear(fs, at)
    requires at.Live() in fs && fs[at.Live()] == DirNode && (Named(kids, "conf.d") ==> ConfD(at) !in fs)
    ensures TopFits(fs, kids, at)
    decreases kids
  {
    hide Marked, Clear;
    if kids.Cons? {
      var home := HomeOf(kids.name, at);
      if kids.name == "conf.d" {
        ConfDClear(fs, kids.tree, at);
      } else {
        assert PlainPlace(home, [kids.name], at) && home[..|home| - 1] == at.Live();
        MigrateClear(fs, kids.tree, home, [kids.name], at);
      }
      MigrateKeeps(fs, kids.tree, home, at);
      TopClear(Migrate(fs, kids.tree, home, at).disk, kids.rest, at);
    }
  }

  /** On a disk without a conflict tree, and if no name of the source looks like a conflict name, a pass
      succeeds whenever the live directory can be made, whatever else is there; and so every regular
      file and link of the source is kept. */
  lemma FirstPassSucceeds(fs: Disk, kids: Kids, at: Target)
    requires WellFormed(fs) && ProperKids(kids) && PlainKids(kids)
    requires forall n :: 0 <= n <= |at.Live()| && at.Live()[..n] in fs ==> fs[at.Live()[..n]] == DirNode
    requires forall q <- fs :: !(at.Conflicts() <= q)
    ensures var o := MigrateDirContents(fs, kids, at);
            o.ok && forall names, n :: names != [] && KidsHold(kids, names, n) ==> KeptSomewhere(o.disk, names, n, at)
  {
    var made := WithLive(fs, at);
    MkdirAllIff(fs, at.Live());
    MkdirAllExtends(fs, at.Live());
    assert at.Live()[..|at.Live()|] == at.Live();
    forall q | q in made ensures !(at.Conflicts() <= q) {
      if at.Conflicts() <= q { NotAbove(q, at); }
    }
    hide Marked;
    TopClear(made, kids, at);
    TopSucceedsIff(made, kids, at);
    NothingIsLost(fs, kids, at);
  }
}
