/** The move driver (`tmpfssymlink`). For each target directory `d` it bind-mounts
    `d` onto a staging directory under `/tmp`, mounts an empty tmpfs over `d`,
    creates a shadow directory `.roNNN` inside it, moves the staging mount onto the
    shadow, and fills `d` with symlinks into the shadow, except for the paths on
    the exclusion list. */
module TmpfsSymlink {
  import opened Strings
  import opened Paths
  import opened FileSystem
  import opened CopyUpCommon
  import opened Symlinks

  /** The driver carries no state. */
  datatype Driver = Driver

  /** `isExcluded`: exact string equality against each excluded path; no cleaning,
      no prefix or subtree match. */
  function IsExcluded(exclusionList: seq<Path>, p: Path): (b: bool)
    ensures b <==> p in exclusionList
  {
    Listed(exclusionList, p)
  }

  /** The entries of the shadow directory that get a link in `dstDir`, in listing
      order: those whose destination path is not excluded. */
  function Targets(files: seq<DirEntry>, dstDir: Path, exclusionList: seq<Path>): (ts: seq<DirEntry>)
    ensures |ts| <= |files|
    ensures forall e :: e in ts <==> e in files && Join(dstDir, e.name) !in exclusionList
    decreases |files|
  {
    if files == [] then []
    else
      var rest := Targets(files[1..], dstDir, exclusionList);
      if IsExcluded(exclusionList, Join(dstDir, files[0].name)) then rest else [files[0]] + rest
  }

  /** `mkSymlinkForTargets(srcDir, dstDir, exclusionList)`: list `srcDir`, drop the
      excluded entries, and link the rest. */
  function MkSymlinkForTargets(env: Env, w: World, srcDir: Path, dstDir: Path,
                               exclusionList: seq<Path>): (s: Step)
    ensures s.world.mounts == w.mounts
    ensures w.log + [ReadDirOp(srcDir)] <= s.world.log
    ensures s.outcome.Failed? && s.outcome.error.ReadDirFailed? ==>
              s.world == Perform(w, ReadDirOp(srcDir)) && s.outcome.error.dir == srcDir
  {
    var rd := ReadDir(env, w, srcDir);
    if rd.res.Err? then Step(rd.world, Failed(ReadDirFailed(srcDir, rd.res.fault)))
    else
      var ts := Targets(rd.res.value, dstDir, exclusionList);
      LinkEntriesFrame(env, rd.world, srcDir, dstDir, ts);
      LinkEntriesNoReadDirError(env, rd.world, srcDir, dstDir, ts);
      LinkEntries(env, rd.world, srcDir, dstDir, ts)
  }

  /** Filtering distributes over concatenation: the kept entries stay in listing order. */
  lemma {:induction false} TargetsAppend(a: seq<DirEntry>, b: seq<DirEntry>, dstDir: Path, exclusionList: seq<Path>)
    ensures Targets(a + b, dstDir, exclusionList) == Targets(a, dstDir, exclusionList) + Targets(b, dstDir, exclusionList)
    decreases |a|
  {
    if a == [] {
      assert a + b == b;
    } else {
      assert (a + b)[0] == a[0] && (a + b)[1..] == a[1..] + b;
      TargetsAppend(a[1..], b, dstDir, exclusionList);
    }
  }

  /** With nothing excluded, every entry gets a link. */
  lemma {:induction false} TargetsNoExclusion(files: seq<DirEntry>, dstDir: Path)
    ensures Targets(files, dstDir, []) == files
    decreases |files|
  {
    if files != [] {
      TargetsNoExclusion(files[1..], dstDir);
      assert files == [files[0]] + files[1..];
    }
  }

  /** The kept entries still name distinct nodes of the directory listed. */
  lemma {:induction false} TargetsEntries(ns: Nodes, src: Path, files: seq<DirEntry>, dstDir: Path, exclusionList: seq<Path>)
    requires Consistent(ns, src, files) && DistinctNames(files)
    ensures Consistent(ns, src, Targets(files, dstDir, exclusionList))
    ensures DistinctNames(Targets(files, dstDir, exclusionList))
    decreases |files|
  {
    if files != [] {
      var rest := Targets(files[1..], dstDir, exclusionList);
      TargetsEntries(ns, src, files[1..], dstDir, exclusionList);
      forall k | 0 <= k < |rest| ensures rest[k].name != files[0].name {
        assert rest[k] in files[1..];
        var j :| 0 <= j < |files[1..]| && files[1..][j] == rest[k];
        assert files[j + 1] == rest[k];
      }
      ConsEntries(ns, src, files[0], rest);
    }
  }

  /** An entry of the directory, put in front of others with different names. */
  lemma ConsEntries(ns: Nodes, src: Path, e: DirEntry, rest: seq<DirEntry>)
    requires EntryOf(ns, src, e) && Consistent(ns, src, rest) && DistinctNames(rest)
    requires forall k :: 0 <= k < |rest| ==> rest[k].name != e.name
    ensures Consistent(ns, src, [e] + rest) && DistinctNames([e] + rest)
  {
    var r := [e] + rest;
    forall i | 0 <= i < |r| ensures EntryOf(ns, src, r[i]) {
      if i > 0 { assert r[i] == rest[i - 1]; }
    }
    forall i, j | 0 <= i < |r| && 0 <= j < |r| && i != j ensures r[i].name != r[j].name {
      if i > 0 { assert r[i] == rest[i - 1]; }
      if j > 0 { assert r[j] == rest[j - 1]; }
    }
  }

  /** The result of steps 1-4 for one directory: bind, tmpfs, shadow, move. */
  datatype Moved = Moved(world: World, shadow: Path, outcome: Outcome)

  /** Steps 1-4 for directory `d` with staging directory `bind0`: bind, tmpfs,
      shadow directory, move. */
  function MoveToShadow(env: Env, w: World, bind0: Path, d: Path): Moved
  {
    var b := Bind(env, w, d, bind0);
    if b.res.Err? then Moved(b.world, [], Failed(BindFailed(d, b.res.fault)))
    else
      var t := MountTmpfs(env, b.world, d);
      if t.res.Err? then Moved(t.world, [], Failed(TmpfsFailed(d, t.res.fault)))
      else ShadowAndMove(env, t.world, bind0, d)
  }

  /** When steps 1-4 go through, the four calls were made in order and the shadow
      directory has the name `os.MkdirTemp` picked at the third call. */
  lemma MoveToShadowDone(env: Env, w: World, bind0: Path, d: Path)
    ensures var m := MoveToShadow(env, w, bind0, d);
      m.outcome.Done? ==>
        && m.shadow == Join(d, ShadowName(env, w))
        && m.world.log == w.log + [BindOp(d, bind0), TmpfsOp(d)] + [MkdirTempOp(d, ShadowPrefix), MoveOp(bind0, m.shadow)]
  {
    var b := Bind(env, w, d, bind0);
    var t := MountTmpfs(env, b.world, d);
    LogChain(w.log, b.world.log, t.world.log, BindOp(d, bind0), TmpfsOp(d));
    SameShadowName(env, w, t.world);
  }

  /** When steps 1-4 stop, the error names the call that failed, and the calls
      made are exactly those up to and including it, in order. */
  lemma MoveToShadowFailed(env: Env, w: World, bind0: Path, d: Path)
    ensures var m := MoveToShadow(env, w, bind0, d);
      var shadow := Join(d, ShadowName(env, w));
      m.outcome.Failed? ==>
        match m.outcome.error
        case BindFailed(dir, _) => dir == d && m.world.log == w.log + [BindOp(d, bind0)]
        case TmpfsFailed(dir, _) => dir == d && m.world.log == w.log + [BindOp(d, bind0), TmpfsOp(d)]
        case ShadowCreateFailed(dir, _) =>
          dir == d && m.world.log == w.log + [BindOp(d, bind0), TmpfsOp(d)] + [MkdirTempOp(d, ShadowPrefix)]
        case MoveFailed(src, dst, _) =>
          && src == bind0 && dst == shadow
          && m.world.log == w.log + [BindOp(d, bind0), TmpfsOp(d)] + [MkdirTempOp(d, ShadowPrefix), MoveOp(bind0, shadow)]
        case _ => false
  {
    var b := Bind(env, w, d, bind0);
    if b.res.Ok? {
      var t := MountTmpfs(env, b.world, d);
      LogChain(w.log, b.world.log, t.world.log, BindOp(d, bind0), TmpfsOp(d));
      if t.res.Ok? {
        SameShadowName(env, w, t.world);
      }
    }
  }

  /** Steps 3 and 4: create the shadow directory inside `d`, then move the staging
      mount onto it. */
  function ShadowAndMove(env: Env, w: World, bind0: Path, d: Path): (m: Moved)
    ensures var shadow := Join(d, TempName(env, |w.log|, ShadowPrefix));
      && (m.outcome.Failed? ==>
            || (m.outcome.error.ShadowCreateFailed? && m.outcome.error.dir == d
                && m.world.log == w.log + [MkdirTempOp(d, ShadowPrefix)])
            || (m.outcome.error.MoveFailed? && m.outcome.error.src == bind0 && m.outcome.error.dst == shadow
                && m.world.log == w.log + [MkdirTempOp(d, ShadowPrefix), MoveOp(bind0, shadow)]))
      && (m.outcome.Done? ==>
            m.shadow == shadow && m.world.log == w.log + [MkdirTempOp(d, ShadowPrefix), MoveOp(bind0, shadow)])
  {
    var mk := MkdirTemp(env, w, d, ShadowPrefix);
    if mk.res.Err? then Moved(mk.world, [], Failed(ShadowCreateFailed(d, mk.res.fault)))
    else
      var bind1 := mk.res.value;
      var mv := Move(env, mk.world, bind0, bind1);
      if mv.res.Err? then Moved(mv.world, bind1, Failed(MoveFailed(bind0, bind1, mv.res.fault)))
      else Moved(mv.world, bind1, Done)
  }

  /** In the model, copying up the root directory cannot go through: the tmpfs over
      `/` hides the staging directory under `/tmp`, so the mount move finds nothing
      to move. This is a property of the model's mount on `/`, which the kernel
      does not share. */
  lemma RootMoveFails(env: Env, w: World, bind0: Path)
    requires Below(bind0, TmpDir)
    ensures MoveToShadow(env, w, bind0, AsDir(Root)).outcome.Failed?
  {
    var d := AsDir(Root);
    var b := Bind(env, w, d, bind0);
    if b.res.Ok? {
      var t := MountTmpfs(env, b.world, d);
      assert bind0 == Join(TmpDir, bind0[|TmpDir| + 1..]);
      TmpfsOverRoot(env, b.world, bind0);
      if t.res.Ok? {
        StagingStaysHidden(env, t.world, bind0);
      }
    }
  }

  /** What the view holds once steps 1-4 went through for `d`: inside `d` nothing
      but the shadow directory, which shows what `d` held before; outside `d`
      nothing changed. */
  ghost predicate ShadowView(ns0: Nodes, ns: Nodes, d: Path, shadow: Path)
  {
    && shadow in ns && ns[shadow] == Dir
    && (forall p :: !Below(p, d) ==> SameAt(ns0, ns, p))
    && (forall p :: Below(p, d) && p in ns ==> Touches(p, shadow))
    && Mirrors(ns0, d, ns, shadow)
  }

  /** The views after each of steps 1-4, as the primitives leave them. */
  ghost predicate StepViews(ns0: Nodes, ns1: Nodes, ns2: Nodes, ns3: Nodes, ns4: Nodes,
                            bind0: Path, d: Path, shadow: Path)
  {
    && Apart(bind0, d) && Apart(bind0, shadow) && Below(shadow, d)
    && (forall p :: !Below(p, bind0) ==> SameAt(ns0, ns1, p))
    && Mirrors(ns0, d, ns1, bind0)
    && (forall p :: !Below(p, d) ==> SameAt(ns1, ns2, p))
    && (forall p :: Below(p, d) ==> p !in ns2)
    && ns3 == ns2[shadow := Dir]
    && ns4 == MovedNodes(ns3, bind0, shadow, Subtree(ns0, bind0))
  }

  lemma StepsOutside(ns0: Nodes, ns1: Nodes, ns2: Nodes, ns3: Nodes, ns4: Nodes, bind0: Path, d: Path, shadow: Path)
    requires StepViews(ns0, ns1, ns2, ns3, ns4, bind0, d, shadow)
    ensures forall p :: !Below(p, d) ==> SameAt(ns0, ns4, p)
  {
    StepsStaging(ns0, ns1, ns2, ns3, ns4, bind0, d, shadow);
    StepsElsewhere(ns0, ns1, ns2, ns3, ns4, bind0, d, shadow);
  }

  /** The staging directory shows again what it held before the bind mount. */
  lemma StepsStaging(ns0: Nodes, ns1: Nodes, ns2: Nodes, ns3: Nodes, ns4: Nodes, bind0: Path, d: Path, shadow: Path)
    requires StepViews(ns0, ns1, ns2, ns3, ns4, bind0, d, shadow)
    ensures forall p :: Below(p, bind0) ==> SameAt(ns0, ns4, p)
  {
    UncoveredAsBefore(ns0, ns3, bind0, shadow);
  }

  lemma UncoveredAsBefore(ns0: Nodes, ns: Nodes, src: Path, dst: Path)
    requires Apart(src, dst)
    ensures forall p :: Below(p, src) ==> SameAt(ns0, MovedNodes(ns, src, dst, Subtree(ns0, src)), p)
  {
    var ns' := MovedNodes(ns, src, dst, Subtree(ns0, src));
    MovedNodesSpec(ns, src, dst, Subtree(ns0, src));
    SubtreeSpec(ns0, src);
    forall p | Below(p, src) ensures SameAt(ns0, ns', p) {
      var r := p[|src| + 1..];
      assert r != [] && p == Join(src, r);
      assert p in ns' <==> r in Subtree(ns0, src);
      if p in ns0 {
        assert ns'[p] == Subtree(ns0, src)[r];
      }
    }
  }

  lemma StepsElsewhere(ns0: Nodes, ns1: Nodes, ns2: Nodes, ns3: Nodes, ns4: Nodes, bind0: Path, d: Path, shadow: Path)
    requires StepViews(ns0, ns1, ns2, ns3, ns4, bind0, d, shadow)
    ensures forall p :: !Below(p, bind0) && !Below(p, d) ==> SameAt(ns0, ns4, p)
  {
    MovedNodesSpec(ns3, bind0, shadow, Subtree(ns0, bind0));
    forall p | !Below(p, bind0) && !Below(p, d) ensures SameAt(ns0, ns4, p) {
      TouchesTransitive(p, shadow, d);
    }
  }

  lemma StepsInside(ns0: Nodes, ns1: Nodes, ns2: Nodes, ns3: Nodes, ns4: Nodes, bind0: Path, d: Path, shadow: Path)
    requires StepViews(ns0, ns1, ns2, ns3, ns4, bind0, d, shadow)
    ensures forall p :: Below(p, d) && p in ns4 ==> Touches(p, shadow)
  {
    MovedNodesSpec(ns3, bind0, shadow, Subtree(ns0, bind0));
    forall p | Below(p, d) && p in ns4 ensures Touches(p, shadow) {
      ApartDisjoint(bind0, d, p);
    }
  }

  lemma StepsShadow(ns0: Nodes, ns1: Nodes, ns2: Nodes, ns3: Nodes, ns4: Nodes, bind0: Path, d: Path, shadow: Path)
    requires StepViews(ns0, ns1, ns2, ns3, ns4, bind0, d, shadow)
    ensures shadow in ns4 && ns4[shadow] == Dir
    ensures Mirrors(ns0, d, ns4, shadow)
  {
    MovedNodesSpec(ns3, bind0, shadow, Subtree(ns0, bind0));
    forall r | r != [] ensures SameAt(ns1, ns3, Join(bind0, r)) {
      JoinBelow(bind0, r);
      ApartDisjoint(bind0, d, Join(bind0, r));
    }
  }

  lemma StepsGiveShadowView(ns0: Nodes, ns1: Nodes, ns2: Nodes, ns3: Nodes, ns4: Nodes, bind0: Path, d: Path, shadow: Path)
    requires StepViews(ns0, ns1, ns2, ns3, ns4, bind0, d, shadow)
    ensures ShadowView(ns0, ns4, d, shadow)
  {
    StepsOutside(ns0, ns1, ns2, ns3, ns4, bind0, d, shadow);
    StepsInside(ns0, ns1, ns2, ns3, ns4, bind0, d, shadow);
    StepsShadow(ns0, ns1, ns2, ns3, ns4, bind0, d, shadow);
  }

  /** The mount stacks once steps 1-4 went through for `d`: a tmpfs on `d`
      remembering what `d` held, and the staging bind mount moved onto the (then
      empty) shadow directory; every other stack as it was, the staging
      directory's included. */
  ghost predicate ShadowMounts(w: World, w': World, d: Path, shadow: Path)
  {
    && Stack(w', d) == Stack(w, d) + [Mount(Tmpfs, Subtree(w.nodes, d))]
    && Stack(w', shadow) == Stack(w, shadow) + [Mount(BindOf(d), map[])]
    && forall p :: p != d && p != shadow ==> Stack(w', p) == Stack(w, p)
  }

  lemma StepsMounts(w: World, w1: World, w2: World, w3: World, w4: World, bind0: Path, d: Path, shadow: Path,
                     atStaging: map<string, Node>, atD: map<string, Node>)
    requires bind0 != d && bind0 != shadow && shadow != d
    requires w1.mounts == Push(w, bind0, Mount(BindOf(d), atStaging))
    requires w2.mounts == Push(w1, d, Mount(Tmpfs, atD))
    requires w3.mounts == w2.mounts
    requires var stack := Stack(w3, bind0);
      && stack != []
      && w4.mounts == w3.mounts[bind0 := stack[..|stack| - 1]]
                               [shadow := Stack(w3, shadow) + [Mount(stack[|stack| - 1].kind, map[])]]
    ensures Stack(w4, d) == Stack(w, d) + [Mount(Tmpfs, atD)]
    ensures Stack(w4, shadow) == Stack(w, shadow) + [Mount(BindOf(d), map[])]
    ensures forall p :: p != d && p != shadow ==> Stack(w4, p) == Stack(w, p)
  {
    var s0 := Stack(w, bind0);
    var top := Mount(BindOf(d), atStaging);
    StackAfterPush(w, w1, bind0, top);
    StackAfterPush(w1, w2, d, Mount(Tmpfs, atD));
    assert Stack(w3, bind0) == s0 + [top];
    assert (s0 + [top])[..|s0|] == s0;
    forall p | p != d && p != shadow ensures Stack(w4, p) == Stack(w, p) {
      if p != bind0 {
        assert Stack(w4, p) == Stack(w3, p);
      }
    }
  }

  /** The bind mount on the staging directory leaves `d`'s subtree as it was. */
  lemma BindKeepsSubtree(ns0: Nodes, ns1: Nodes, bind0: Path, d: Path)
    requires Apart(bind0, d)
    requires forall p :: !Below(p, bind0) ==> SameAt(ns0, ns1, p)
    ensures Subtree(ns1, d) == Subtree(ns0, d)
  {
    forall r | r != [] ensures SameAt(ns0, ns1, Join(d, r)) {
      JoinBelow(d, r);
      ApartDisjoint(bind0, d, Join(d, r));
    }
    SubtreeAgree(ns0, ns1, d);
  }

  /** The shadow directory is empty when the staging mount is moved onto it. */
  lemma EmptyShadow(ns2: Nodes, ns3: Nodes, d: Path, shadow: Path)
    requires Below(shadow, d)
    requires forall p :: Below(p, d) ==> p !in ns2
    requires ns3 == ns2[shadow := Dir]
    ensures Subtree(ns3, shadow) == map[]
  {
    SubtreeSpec(ns3, shadow);
    forall r | r != [] ensures Join(shadow, r) !in ns3 {
      JoinBelow(shadow, r);
      TouchesTransitive(Join(shadow, r), shadow, d);
    }
  }

  /** What steps 1-4 leave when they go through, provided the staging directory
      and `d` are apart (neither inside the other). */
  lemma MoveToShadowView(env: Env, w: World, bind0: Path, d: Path)
    requires Apart(bind0, d)
    ensures var m := MoveToShadow(env, w, bind0, d);
      m.outcome.Done? ==>
        && m.shadow == Join(d, ShadowName(env, w))
        && IsDir(w.nodes, d)
        && ShadowView(w.nodes, m.world.nodes, d, m.shadow)
        && ShadowMounts(w, m.world, d, m.shadow)
  {
    MoveToShadowNodes(env, w, bind0, d);
    MoveToShadowMounts(env, w, bind0, d);
  }

  /** The top mount of the staging directory once steps 1-3 went through is the
      bind mount of step 1. */
  lemma StagingTop(w: World, w1: World, w3: World, bind0: Path, d: Path, m: Mount, atD: map<string, Node>)
    requires bind0 != d
    requires w1.mounts == Push(w, bind0, m)
    requires w3.mounts == Push(w1, d, Mount(Tmpfs, atD))
    ensures var stack := Stack(w3, bind0); stack != [] && stack[|stack| - 1] == m
  {
  }

  lemma MoveToShadowNodes(env: Env, w: World, bind0: Path, d: Path)
    requires Apart(bind0, d)
    ensures var m := MoveToShadow(env, w, bind0, d);
      m.outcome.Done? ==>
        && m.shadow == Join(d, ShadowName(env, w))
        && IsDir(w.nodes, d)
        && ShadowView(w.nodes, m.world.nodes, d, m.shadow)
  {
    MoveToShadowDone(env, w, bind0, d);
    var b := Bind(env, w, d, bind0);
    var t := MountTmpfs(env, b.world, d);
    var mk := MkdirTemp(env, t.world, d, ShadowPrefix);
    var shadow := Join(d, TempName(env, |t.world.log|, ShadowPrefix));
    var mv := Move(env, mk.world, bind0, shadow);
    if b.res.Ok? && t.res.Ok? && mk.res.Ok? && mv.res.Ok? {
      BindOk(env, w, d, bind0);
      TmpfsOk(env, b.world, d);
      StagingTop(w, b.world, mk.world, bind0, d, Mount(BindOf(d), Subtree(w.nodes, bind0)), Subtree(b.world.nodes, d));
      ShadowNameIsName(env, |t.world.log|);
      EntryApart(bind0, d, TempName(env, |t.world.log|, ShadowPrefix));
      MoveOkNodes(env, mk.world, bind0, shadow);
      assert StepViews(w.nodes, b.world.nodes, t.world.nodes, mk.world.nodes, mv.world.nodes, bind0, d, shadow);
      StepsGiveShadowView(w.nodes, b.world.nodes, t.world.nodes, mk.world.nodes, mv.world.nodes, bind0, d, shadow);
    }
  }

  lemma MoveToShadowMounts(env: Env, w: World, bind0: Path, d: Path)
    requires Apart(bind0, d)
    ensures var m := MoveToShadow(env, w, bind0, d);
      m.outcome.Done? ==> ShadowMounts(w, m.world, d, m.shadow)
  {
    MoveToShadowDone(env, w, bind0, d);
    var b := Bind(env, w, d, bind0);
    var t := MountTmpfs(env, b.world, d);
    var mk := MkdirTemp(env, t.world, d, ShadowPrefix);
    var shadow := Join(d, TempName(env, |t.world.log|, ShadowPrefix));
    var mv := Move(env, mk.world, bind0, shadow);
    if b.res.Ok? && t.res.Ok? && mk.res.Ok? && mv.res.Ok? {
      BindOk(env, w, d, bind0);
      TmpfsOk(env, b.world, d);
      ShadowNameIsName(env, |t.world.log|);
      EntryApart(bind0, d, TempName(env, |t.world.log|, ShadowPrefix));
      MoveOkMounts(env, mk.world, bind0, shadow);
      BindKeepsSubtree(w.nodes, b.world.nodes, bind0, d);
      EmptyShadow(t.world.nodes, mk.world.nodes, d, shadow);
      StepsMounts(w, b.world, t.world, mk.world, mv.world, bind0, d, shadow, Subtree(w.nodes, bind0), Subtree(w.nodes, d));
    }
  }

  /** Where the link for the original entry `n` of `d` points once `d` is copied up
      with shadow directory `name`: where the entry pointed, if it was a symlink;
      otherwise at its new place `name/n`, relative to `d`. */
  function Redirect(ns0: Nodes, d: Path, name: string, n: string): Path
    requires Join(d, n) in ns0
  {
    if ns0[Join(d, n)].Symlink? then ns0[Join(d, n)].target else Join(name, n)
  }

  /** What copying up `d` with shadow directory `name` leaves, compared with the
      view `ns0` before: the shadow directory holds what `d` held; every other
      original entry of `d` not on the exclusion list is a symlink to where
      `Redirect` says; excluded entries are hidden; inside `d` there is nothing
      else; outside `d` nothing changed. */
  ghost predicate CopiedUp(ns0: Nodes, ns: Nodes, d: Path, name: string, exclusionList: seq<Path>)
  {
    var shadow := Join(d, name);
    && shadow in ns && ns[shadow] == Dir
    && Mirrors(ns0, d, ns, shadow)
    && (forall p :: !Below(p, d) ==> SameAt(ns0, ns, p))
    && (forall n :: IsName(n) && n != name ==>
          (Join(d, n) in ns <==> Join(d, n) in ns0 && Join(d, n) !in exclusionList))
    && (forall n :: IsName(n) && n != name && Join(d, n) in ns && Join(d, n) in ns0 ==>
          ns[Join(d, n)] == Symlink(Redirect(ns0, d, name, n)))
    && (forall p :: Below(p, d) && p in ns ==> Touches(p, shadow) || IsName(p[|d| + 1..]))
  }

  /** The entries that get links, for the view left by steps 1-4. */
  function ShadowTargets(ns4: Nodes, d: Path, name: string, exclusionList: seq<Path>): seq<DirEntry>
  {
    Targets(Listing(ns4, Join(d, name)), d, exclusionList)
  }

  /** Before step 5: the targets meet `LinkEntriesDone`'s preconditions, provided
      none of them lands on the shadow directory. */
  lemma LinkPhaseReady(ns0: Nodes, ns4: Nodes, d: Path, name: string, exclusionList: seq<Path>)
    requires ShadowView(ns0, ns4, d, Join(d, name)) && IsName(name) && IsDir(ns0, d)
    requires var ts := ShadowTargets(ns4, d, name, exclusionList);
      forall i :: 0 <= i < |ts| ==> ts[i].name != name
    ensures var ts := ShadowTargets(ns4, d, name, exclusionList);
      && Consistent(ns4, Join(d, name), ts) && DistinctNames(ts)
      && IsDir(ns4, d) && Separated(Join(d, name), d, ts)
  {
    var shadow := Join(d, name);
    var ts := ShadowTargets(ns4, d, name, exclusionList);
    ListingSpec(ns4, shadow);
    TargetsEntries(ns4, shadow, Listing(ns4, shadow), d, exclusionList);
    assert SameAt(ns0, ns4, d);
    forall i, j | 0 <= i < |ts| && 0 <= j < |ts|
      ensures !Touches(Join(shadow, ts[i].name), Join(d, ts[j].name))
    {
      NephewApart(d, name, ts[j].name, ts[i].name);
    }
  }

  /** Inside `d`, after steps 1-4, no entry other than the shadow directory. */
  lemma OnlyShadow(ns0: Nodes, ns4: Nodes, d: Path, name: string, n: string)
    requires ShadowView(ns0, ns4, d, Join(d, name)) && IsName(name) && IsName(n) && n != name
    ensures Join(d, n) !in ns4
  {
    JoinBelow(d, n);
    SiblingsApart(d, n, name);
  }

  /** After step 5 went through: what `LinkEntries` promises about the view `ns`
      it leaves, for the view `ns4` that steps 1-4 left. */
  ghost predicate LinkedView(ns0: Nodes, ns4: Nodes, ns: Nodes, d: Path, name: string, exclusionList: seq<Path>)
  {
    var shadow := Join(d, name);
    var ts := ShadowTargets(ns4, d, name, exclusionList);
    && ShadowView(ns0, ns4, d, shadow) && IsName(name)
    && Consistent(ns4, shadow, ts)
    && (forall i :: 0 <= i < |ts| ==> ts[i].name != name)
    && (forall i :: 0 <= i < |ts| ==>
          Join(d, ts[i].name) in ns && ns[Join(d, ts[i].name)] == Symlink(LinkTarget(ns4, shadow, ts[i])))
    && (forall p :: Untouched(p, d, ts) ==> SameAt(ns4, ns, p))
    && (forall p :: p in ns ==> p in ns4 || IsEntryPath(p, d, ts))
  }

  /** The shadow directory and what it holds are left alone by the links. */
  lemma LinkedShadow(ns0: Nodes, ns4: Nodes, ns: Nodes, d: Path, name: string, exclusionList: seq<Path>)
    requires LinkedView(ns0, ns4, ns, d, name, exclusionList)
    ensures Join(d, name) in ns && ns[Join(d, name)] == Dir
    ensures Mirrors(ns0, d, ns, Join(d, name))
  {
    var shadow := Join(d, name);
    var ts := ShadowTargets(ns4, d, name, exclusionList);
    forall i | 0 <= i < |ts| ensures !Touches(shadow, Join(d, ts[i].name)) {
      SiblingsApart(d, name, ts[i].name);
    }
    assert Untouched(shadow, d, ts);
    forall r | r != [] ensures SameAt(ns4, ns, Join(shadow, r)) {
      forall i | 0 <= i < |ts| ensures !Touches(Join(shadow, r), Join(d, ts[i].name)) {
        NephewApart(d, name, ts[i].name, r);
      }
    }
  }

  /** Nothing outside `d` changes. */
  lemma LinkedOutside(ns0: Nodes, ns4: Nodes, ns: Nodes, d: Path, name: string, exclusionList: seq<Path>)
    requires LinkedView(ns0, ns4, ns, d, name, exclusionList)
    ensures forall p :: !Below(p, d) ==> SameAt(ns0, ns, p)
  {
    var ts := ShadowTargets(ns4, d, name, exclusionList);
    forall p | !Below(p, d) ensures Untouched(p, d, ts) {
      forall i | 0 <= i < |ts| ensures !Touches(p, Join(d, ts[i].name)) {
        JoinBelow(d, ts[i].name);
        TouchesTransitive(p, Join(d, ts[i].name), d);
      }
    }
  }

  /** An entry of `d` other than the shadow directory is present exactly when it
      was an original entry off the exclusion list, and then it is the link. */
  lemma LinkedEntries(ns0: Nodes, ns4: Nodes, ns: Nodes, d: Path, name: string, exclusionList: seq<Path>, n: string)
    requires LinkedView(ns0, ns4, ns, d, name, exclusionList)
    requires IsName(n) && n != name
    ensures Join(d, n) in ns <==> Join(d, n) in ns0 && Join(d, n) !in exclusionList
    ensures Join(d, n) in ns && Join(d, n) in ns0 ==> ns[Join(d, n)] == Symlink(Redirect(ns0, d, name, n))
  {
    LinkedEntryKept(ns0, ns4, ns, d, name, exclusionList, n);
    LinkedEntryIsLink(ns0, ns4, ns, d, name, exclusionList, n);
  }

  lemma LinkedEntryKept(ns0: Nodes, ns4: Nodes, ns: Nodes, d: Path, name: string, exclusionList: seq<Path>, n: string)
    requires LinkedView(ns0, ns4, ns, d, name, exclusionList)
    requires IsName(n) && n != name
    ensures Join(d, n) in ns0 && Join(d, n) !in exclusionList ==> Join(d, n) in ns
  {
    var shadow := Join(d, name);
    var listing := Listing(ns4, shadow);
    if Join(d, n) in ns0 && Join(d, n) !in exclusionList {
      ListingSpec(ns4, shadow);
      assert Join(shadow, n) in ns4;
      assert n in Names(listing);
      var k :| 0 <= k < |listing| && listing[k].name == n;
      assert listing[k] in ShadowTargets(ns4, d, name, exclusionList);
    }
  }

  lemma LinkedEntryIsLink(ns0: Nodes, ns4: Nodes, ns: Nodes, d: Path, name: string, exclusionList: seq<Path>, n: string)
    requires LinkedView(ns0, ns4, ns, d, name, exclusionList)
    requires IsName(n) && n != name
    ensures Join(d, n) in ns ==>
      && Join(d, n) in ns0 && Join(d, n) !in exclusionList
      && ns[Join(d, n)] == Symlink(Redirect(ns0, d, name, n))
  {
    var shadow := Join(d, name);
    var ts := ShadowTargets(ns4, d, name, exclusionList);
    OnlyShadow(ns0, ns4, d, name, n);
    if Join(d, n) in ns {
      var i :| 0 <= i < |ts| && Join(d, n) == Join(d, ts[i].name);
      JoinInjective(d, n, ts[i].name);
      assert EntryOf(ns4, shadow, ts[i]);
      assert ts[i] in Listing(ns4, shadow);
      BaseOfJoin(d, name);
    }
  }

  /** Inside `d` there is only the shadow directory's subtree and the links. */
  lemma LinkedInside(ns0: Nodes, ns4: Nodes, ns: Nodes, d: Path, name: string, exclusionList: seq<Path>)
    requires LinkedView(ns0, ns4, ns, d, name, exclusionList)
    ensures forall p :: Below(p, d) && p in ns ==> Touches(p, Join(d, name)) || IsName(p[|d| + 1..])
  {
    var ts := ShadowTargets(ns4, d, name, exclusionList);
    forall p | Below(p, d) && p in ns && p !in ns4 ensures IsName(p[|d| + 1..]) {
      var i :| 0 <= i < |ts| && p == Join(d, ts[i].name);
      JoinBelowAny(d, ts[i].name);
    }
  }

  lemma LinkedCopiedUp(ns0: Nodes, ns4: Nodes, ns: Nodes, d: Path, name: string, exclusionList: seq<Path>)
    requires LinkedView(ns0, ns4, ns, d, name, exclusionList)
    ensures CopiedUp(ns0, ns, d, name, exclusionList)
  {
    LinkedShadow(ns0, ns4, ns, d, name, exclusionList);
    LinkedOutside(ns0, ns4, ns, d, name, exclusionList);
    LinkedInside(ns0, ns4, ns, d, name, exclusionList);
    forall n | IsName(n) && n != name
      ensures Join(d, n) in ns <==> Join(d, n) in ns0 && Join(d, n) !in exclusionList
      ensures Join(d, n) in ns && Join(d, n) in ns0 ==> ns[Join(d, n)] == Symlink(Redirect(ns0, d, name, n))
    {
      LinkedEntries(ns0, ns4, ns, d, name, exclusionList, n);
    }
  }

  /** Step 5 on the world steps 1-4 left: when it goes through, `d` is copied up. */
  lemma LinkPhase(env: Env, w4: World, ns0: Nodes, d: Path, name: string, exclusionList: seq<Path>)
    requires ShadowView(ns0, w4.nodes, d, Join(d, name)) && IsName(name) && IsDir(ns0, d)
    requires IsMountPoint(w4, Join(d, name))
    ensures var s := MkSymlinkForTargets(env, w4, Join(d, name), d, exclusionList);
      s.outcome.Done? ==> CopiedUp(ns0, s.world.nodes, d, name, exclusionList)
  {
    var shadow := Join(d, name);
    var rd := ReadDir(env, w4, shadow);
    if rd.res.Ok? {
      var ts := Targets(rd.res.value, d, exclusionList);
      var s := LinkEntries(env, rd.world, shadow, d, ts);
      ListingSpec(w4.nodes, shadow);
      TargetsEntries(w4.nodes, shadow, rd.res.value, d, exclusionList);
      LinkEntriesDoneAvoidsMounts(env, rd.world, shadow, d, ts);
      if s.outcome.Done? {
        assert forall i :: 0 <= i < |ts| ==> ts[i].name != name;
        LinkPhaseReady(ns0, w4.nodes, d, name, exclusionList);
        LinkEntriesDone(env, rd.world, shadow, d, ts);
        LinkEntriesFrame(env, rd.world, shadow, d, ts);
        LinkEntriesAddsOnlyLinks(env, rd.world, shadow, d, ts);
        LinkedCopiedUp(ns0, w4.nodes, s.world.nodes, d, name, exclusionList);
      }
    }
  }

  /** Copying up one directory `d`, when it goes through, leaves `d` showing the
      shadow directory `.roNNN` (holding what `d` held) and, for each other
      original entry not excluded, a symlink into it or to the entry's own link
      target; excluded entries are hidden; nothing outside `d` changes; and the
      mount table gains exactly the tmpfs on `d` and the moved bind mount on the
      shadow directory. Provided the staging directory and `d` are apart. */
  lemma CopyUpDirDone(env: Env, w: World, bind0: Path, d: Path, exclusionList: seq<Path>)
    requires Apart(bind0, d)
    ensures var s := CopyUpDir(env, w, bind0, d, exclusionList);
      s.outcome.Done? ==>
        && CopiedUp(w.nodes, s.world.nodes, d, ShadowName(env, w), exclusionList)
        && ShadowMounts(w, s.world, d, Join(d, ShadowName(env, w)))
  {
    CopyUpDirContents(env, w, bind0, d, exclusionList);
    CopyUpDirMounts(env, w, bind0, d, exclusionList);
  }

  lemma CopyUpDirContents(env: Env, w: World, bind0: Path, d: Path, exclusionList: seq<Path>)
    requires Apart(bind0, d)
    ensures var s := CopyUpDir(env, w, bind0, d, exclusionList);
      s.outcome.Done? ==> CopiedUp(w.nodes, s.world.nodes, d, ShadowName(env, w), exclusionList)
  {
    MoveToShadowView(env, w, bind0, d);
    var m := MoveToShadow(env, w, bind0, d);
    if m.outcome.Done? {
      ShadowNameIsName(env, |w.log| + 2);
      LinkPhase(env, m.world, w.nodes, d, ShadowName(env, w), exclusionList);
    }
  }

  lemma CopyUpDirMounts(env: Env, w: World, bind0: Path, d: Path, exclusionList: seq<Path>)
    requires Apart(bind0, d)
    ensures var s := CopyUpDir(env, w, bind0, d, exclusionList);
      s.outcome.Done? ==> ShadowMounts(w, s.world, d, Join(d, ShadowName(env, w)))
  {
    MoveToShadowView(env, w, bind0, d);
    var m := MoveToShadow(env, w, bind0, d);
    if m.outcome.Done? {
      var s := MkSymlinkForTargets(env, m.world, m.shadow, d, exclusionList);
      SameMountTable(w, m.world, s.world, d, m.shadow);
    }
  }

  /** Only the mount table matters to `ShadowMounts`. */
  lemma SameMountTable(w: World, w1: World, w2: World, d: Path, shadow: Path)
    requires ShadowMounts(w, w1, d, shadow) && w2.mounts == w1.mounts
    ensures ShadowMounts(w, w2, d, shadow)
  {
    assert forall p :: Stack(w2, p) == Stack(w1, p);
  }

  /** The loop body of `CopyUpWithExclusion` for one cleaned directory `d`. */
  function CopyUpDir(env: Env, w: World, bind0: Path, d: Path, exclusionList: seq<Path>): Step
  {
    var m := MoveToShadow(env, w, bind0, d);
    if m.outcome.Failed? then Step(m.world, m.outcome)
    else MkSymlinkForTargets(env, m.world, m.shadow, d, exclusionList)
  }

  /** `CopyUpWithExclusion(dirs, exclusionList)`: create the staging directory, then
      copy up each directory in turn. Returns the cleaned directories copied before
      the first failure. */
  function CopyUpWithExclusion(drv: Driver, env: Env, w: World, dirs: seq<Path>,
                               exclusionList: seq<Path>): (r: Report)
    ensures r.copied <= CleanAll(env, dirs)
    ensures r.outcome.Done? ==> r.copied == CleanAll(env, dirs)
    ensures TmpDir !in r.copied
  {
    var b := MkdirTemp(env, w, TmpDir, StagingPrefix);
    if b.res.Err? then Report(b.world, [], Failed(StagingCreateFailed(b.res.fault)))
    else
      var bind0 := b.res.value;
      ForEachDir(env, b.world, dirs, [], (w', d) => CopyUpDir(env, w', bind0, d, exclusionList))
  }

  /** `CopyUp(dirs)`: the same with an empty exclusion list. */
  function CopyUp(drv: Driver, env: Env, w: World, dirs: seq<Path>): (r: Report)
    ensures r.copied <= CleanAll(env, dirs)
    ensures r.outcome.Done? ==> r.copied == CleanAll(env, dirs)
  {
    CopyUpWithExclusion(drv, env, w, dirs, [])
  }

  /** The per-directory pipeline reports only errors of its own steps. */
  lemma CopyUpDirErrors(env: Env, w: World, bind0: Path, d: Path, exclusionList: seq<Path>)
    ensures var s := CopyUpDir(env, w, bind0, d, exclusionList);
      s.outcome.Failed? ==> !s.outcome.error.StagingCreateFailed? && !s.outcome.error.InvalidTarget?
  {
    MoveToShadowFailed(env, w, bind0, d);
    var m := MoveToShadow(env, w, bind0, d);
    if m.outcome.Done? {
      var rd := ReadDir(env, m.world, m.shadow);
      if rd.res.Ok? {
        var ts := Targets(rd.res.value, d, exclusionList);
        LinkEntriesNoReadDirError(env, rd.world, m.shadow, d, ts);
      }
    }
  }

  /** The staging directory cannot be created exactly when the call reports
      `StagingCreateFailed`; it then returns no directories, and the call made
      changed nothing but the log. */
  lemma StagingFailure(drv: Driver, env: Env, w: World, dirs: seq<Path>, exclusionList: seq<Path>)
    ensures var b := MkdirTemp(env, w, TmpDir, StagingPrefix);
      var r := CopyUpWithExclusion(drv, env, w, dirs, exclusionList);
      && (b.res.Err? <==> r.outcome.Failed? && r.outcome.error.StagingCreateFailed?)
      && (b.res.Err? ==>
            && r.copied == []
            && r.world.nodes == w.nodes && r.world.mounts == w.mounts
            && r.world.log == w.log + [MkdirTempOp(TmpDir, StagingPrefix)])
  {
    var b := MkdirTemp(env, w, TmpDir, StagingPrefix);
    if b.res.Ok? {
      var bind0 := b.res.value;
      var pipeline := (w', d) => CopyUpDir(env, w', bind0, d, exclusionList);
      ForEachDirFailedBy(env, b.world, dirs, [], pipeline);
      forall w', d ensures pipeline(w', d).outcome.Failed? ==> !pipeline(w', d).outcome.error.StagingCreateFailed? {
        CopyUpDirErrors(env, w', bind0, d, exclusionList);
      }
    }
  }
}
