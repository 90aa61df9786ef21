/** The exclusive driver (`bindmount_exclusive`). For each target directory `d` it
    bind-mounts `d` onto a staging directory under `/tmp`, mounts an empty tmpfs
    over `d`, creates a shadow directory `.roNNN` inside it, rebuilds in the
    shadow directory the entries of `d` that are not on the ignore list (an empty
    directory plus a bind mount for a subdirectory, a copy for a regular file,
    nothing for anything else), and fills `d` with symlinks into the shadow.

    Three details are kept as the driver does them: the bind mount for a
    subdirectory goes from the new shadow subdirectory onto the staging entry
    (the reverse of what its error message says); a failed `os.Open` goes
    unnoticed, because the check after it tests an earlier, nil error; and copy
    errors are dropped, so a regular file may be left truncated or empty. */
module BindmountExclusive {
  import opened Strings
  import opened Paths
  import opened FileSystem
  import opened CopyUpCommon
  import opened Symlinks

  /** The driver holds the ignore list it was constructed with; it offers
      `CopyUp` only, with no per-call exclusion list. */
  datatype Driver = Driver(ignoreList: seq<Path>)

  /** `isIgnoredTarget`: exact string equality against each ignored path; no
      cleaning, no prefix or subtree match. */
  function IsIgnoredTarget(drv: Driver, p: Path): (b: bool)
    ensures b <==> p in drv.ignoreList
  {
    Listed(drv.ignoreList, p)
  }

  /** `NewChildDriver(ignorePaths)`: the list is fixed from here on. */
  function NewChildDriver(ignorePaths: seq<Path>): (drv: Driver)
    ensures forall p :: IsIgnoredTarget(drv, p) <==> p in ignorePaths
  {
    Driver(ignorePaths)
  }

  /** The loop body of the rebuild for one entry `e` of the staging directory
      `bind0`, with `d` the target directory and `bind1` the shadow directory. */
  function RebuildOne(drv: Driver, env: Env, w: World, bind0: Path, d: Path, bind1: Path, e: DirEntry): (s: Step)
    ensures IsIgnoredTarget(drv, Join(d, e.name)) || (e.kind != KDir && e.kind != KRegular) ==> s == Step(w, Done)
    ensures s.outcome.Failed? ==>
      && e.kind == KDir && !IsIgnoredTarget(drv, Join(d, e.name))
      && (s.outcome.error.MkdirFailed? || s.outcome.error.EntryMountFailed?)
    ensures w.log <= s.world.log
  {
    if IsIgnoredTarget(drv, Join(d, e.name)) then Step(w, Done)
    else
      var copyTarget := Join(bind1, e.name);
      var source := Join(bind0, e.name);
      if e.kind == KDir then
        var mk := Mkdir(env, w, bind1, e.name);
        if mk.res.Err? then Step(mk.world, Failed(MkdirFailed(copyTarget, mk.res.fault)))
        else
          // The mount source and target are swapped relative to the error message.
          var b := Bind(env, mk.world, copyTarget, source);
          if b.res.Err? then Step(b.world, Failed(EntryMountFailed(source, copyTarget, b.res.fault)))
          else Step(b.world, Done)
      else if e.kind == KRegular then
        // The error checked after the open is an earlier one, always nil here.
        var o := Open(env, w, source);
        var c := Create(env, o.world, bind1, e.name);
        if c.res.Err? then Step(c.world, Done)
        else
          var cp := Copy(env, c.world, o.res, source, copyTarget);
          Step(cp.world, Done)
      else Step(w, Done)
  }

  /** The rebuild loop over the listed entries, in order; stops at the first failure. */
  function Rebuild(drv: Driver, env: Env, w: World, bind0: Path, d: Path, bind1: Path, es: seq<DirEntry>): (s: Step)
    ensures w.log <= s.world.log
    ensures s.outcome.Failed? ==>
      && (s.outcome.error.MkdirFailed? || s.outcome.error.EntryMountFailed?)
      && exists i :: 0 <= i < |es| && es[i].kind == KDir && !IsIgnoredTarget(drv, Join(d, es[i].name))
    decreases |es|
  {
    if es == [] then Step(w, Done)
    else
      var s1 := RebuildOne(drv, env, w, bind0, d, bind1, es[0]);
      if s1.outcome.Failed? then s1
      else
        var s := Rebuild(drv, env, s1.world, bind0, d, bind1, es[1..]);
        assert s.outcome.Failed? ==> exists i :: 1 <= i < |es| && es[i].kind == KDir && !IsIgnoredTarget(drv, Join(d, es[i].name)) by {
          if s.outcome.Failed? {
            var i :| 0 <= i < |es[1..]| && es[1..][i].kind == KDir && !IsIgnoredTarget(drv, Join(d, es[1..][i].name));
            assert es[i + 1] == es[1..][i];
          }
        }
        s
  }

  /** A subdirectory entry that is not ignored: `os.Mkdir` makes an empty directory
      `bind1/name`, and the bind mount then goes from it onto the staging entry
      `bind0/name`, so afterwards the staging entry shows what the new (empty)
      directory holds and carries the mount. Either failure ends the rebuild. */
  lemma RebuildOneDir(drv: Driver, env: Env, w: World, bind0: Path, d: Path, bind1: Path, e: DirEntry)
    requires e.kind == KDir && !IsIgnoredTarget(drv, Join(d, e.name))
    requires Apart(bind0, bind1) && IsName(e.name)
    ensures var s := RebuildOne(drv, env, w, bind0, d, bind1, e);
      var target := Join(bind1, e.name);
      var source := Join(bind0, e.name);
      && (s.outcome.Failed? ==>
            || (s.outcome.error.MkdirFailed? && s.outcome.error.path == target
                && s.world.log == w.log + [MkdirOp(target)])
            || (s.outcome.error.EntryMountFailed? && s.outcome.error.src == source && s.outcome.error.dst == target
                && s.world.log == w.log + [MkdirOp(target), BindOp(target, source)]))
      && (s.outcome.Done? ==>
            && s.world.log == w.log + [MkdirOp(target), BindOp(target, source)]
            && target !in w.nodes && target in s.world.nodes && s.world.nodes[target] == Dir
            && (forall p :: !Below(p, source) && p != target ==> SameAt(w.nodes, s.world.nodes, p))
            && Mirrors(w.nodes, target, s.world.nodes, source)
            && exists covered :: s.world.mounts == w.mounts[source := Stack(w, source) + [Mount(BindOf(target), covered)]])
  {
    var target := Join(bind1, e.name);
    var source := Join(bind0, e.name);
    var mk := Mkdir(env, w, bind1, e.name);
    if mk.res.Ok? {
      var b := Bind(env, mk.world, target, source);
      BindOk(env, mk.world, target, source);
      if b.res.Ok? {
        JoinBelow(bind1, e.name);
        JoinBelow(bind0, e.name);
        assert !Below(target, source) by {
          if Below(target, source) {
            TouchesTransitive(target, source, bind0);
            ApartDisjoint(bind0, bind1, target);
          }
        }
        forall r | r != [] ensures SameAt(w.nodes, mk.world.nodes, Join(target, r)) {
          JoinBelow(target, r);
        }
        assert Stack(mk.world, source) == Stack(w, source);
      }
    }
  }

  /** A regular file that is not ignored: the rebuild never stops on it. If
      `os.Create` fails the entry is skipped; otherwise `bind1/name` is a regular
      file holding a prefix of the source's bytes (all of them unless the copy
      fails), and nothing if the source could not be opened. */
  lemma RebuildOneRegular(drv: Driver, env: Env, w: World, bind0: Path, d: Path, bind1: Path, e: DirEntry)
    requires e.kind == KRegular && !IsIgnoredTarget(drv, Join(d, e.name))
    ensures var s := RebuildOne(drv, env, w, bind0, d, bind1, e);
      var target := Join(bind1, e.name);
      var source := Join(bind0, e.name);
      && s.outcome.Done?
      && s.world.mounts == w.mounts
      && (|| (s.world.log == w.log + [OpenOp(source), CreateOp(target)] && s.world.nodes == w.nodes)
          || (&& s.world.log == w.log + [OpenOp(source), CreateOp(target), CopyOp(source, target)]
              && target in s.world.nodes && s.world.nodes[target].File?
              && s.world.nodes == w.nodes[target := s.world.nodes[target]]
              && (source in w.nodes && w.nodes[source].File? ==>
                    s.world.nodes[target].content <= w.nodes[source].content)
              && (Open(env, w, source).res.Err? ==> s.world.nodes[target].content == [])))
  {
  }

  /** What entry `e` of `bind0` became in the shadow directory `bind1`, judged on the
      views `ns` before the rebuild and `ns'` after it: it was not ignored, and it
      is an empty-named directory for a directory, or a regular file holding a
      prefix of the source's bytes for a regular file. */
  predicate Built(drv: Driver, ns: Nodes, ns': Nodes, bind0: Path, d: Path, bind1: Path, e: DirEntry)
    requires Join(bind1, e.name) in ns'
  {
    var made := ns'[Join(bind1, e.name)];
    var source := Join(bind0, e.name);
    && !IsIgnoredTarget(drv, Join(d, e.name))
    && ((e.kind == KDir && made == Dir)
        || (e.kind == KRegular && made.File? && source in ns && ns[source].File?
            && made.content <= ns[source].content))
  }

  /** One entry changes nothing but its copy in `bind1` and what lies inside its
      staging entry. */
  lemma RebuildOneFrame(drv: Driver, env: Env, w: World, bind0: Path, d: Path, bind1: Path, e: DirEntry)
    ensures var s := RebuildOne(drv, env, w, bind0, d, bind1, e);
      forall p :: !Below(p, Join(bind0, e.name)) && p != Join(bind1, e.name) ==> SameAt(w.nodes, s.world.nodes, p)
  {
    if e.kind == KDir && !IsIgnoredTarget(drv, Join(d, e.name)) {
      var mk := Mkdir(env, w, bind1, e.name);
      if mk.res.Ok? {
        BindOk(env, mk.world, Join(bind1, e.name), Join(bind0, e.name));
      }
    }
  }

  /** One entry whose copy is not there yet: what appears at `bind1/name` is what
      `Built` says, and a directory that is not ignored always appears when the
      rebuild goes on. */
  lemma RebuildOneBuilt(drv: Driver, env: Env, w: World, bind0: Path, d: Path, bind1: Path, e: DirEntry)
    requires EntryOf(w.nodes, bind0, e) && Apart(bind0, bind1)
    requires Join(bind1, e.name) !in w.nodes
    ensures var s := RebuildOne(drv, env, w, bind0, d, bind1, e);
      && (Join(bind1, e.name) in s.world.nodes ==> Built(drv, w.nodes, s.world.nodes, bind0, d, bind1, e))
      && (s.outcome.Done? && e.kind == KDir && !IsIgnoredTarget(drv, Join(d, e.name)) ==>
            Join(bind1, e.name) in s.world.nodes)
  {
    if !IsIgnoredTarget(drv, Join(d, e.name)) {
      if e.kind == KDir {
        RebuildOneDir(drv, env, w, bind0, d, bind1, e);
      } else if e.kind == KRegular {
        RebuildOneRegular(drv, env, w, bind0, d, bind1, e);
      }
    }
  }

  /** `p` is none of the copies for `es` and lies inside none of their staging entries. */
  predicate Spared(p: Path, bind0: Path, bind1: Path, es: seq<DirEntry>)
  {
    forall i :: 0 <= i < |es| ==> !Below(p, Join(bind0, es[i].name)) && p != Join(bind1, es[i].name)
  }

  /** The rebuild changes nothing but the copies and the insides of the staging entries. */
  lemma {:induction false} RebuildFrame(drv: Driver, env: Env, w: World, bind0: Path, d: Path, bind1: Path, es: seq<DirEntry>)
    ensures var s := Rebuild(drv, env, w, bind0, d, bind1, es);
      forall p :: Spared(p, bind0, bind1, es) ==> SameAt(w.nodes, s.world.nodes, p)
    decreases |es|
  {
    if es != [] {
      RebuildOneFrame(drv, env, w, bind0, d, bind1, es[0]);
      var s1 := RebuildOne(drv, env, w, bind0, d, bind1, es[0]);
      if s1.outcome.Done? {
        RebuildFrame(drv, env, s1.world, bind0, d, bind1, es[1..]);
        forall p | Spared(p, bind0, bind1, es) ensures Spared(p, bind0, bind1, es[1..]) {
          forall i | 0 <= i < |es[1..]|
            ensures !Below(p, Join(bind0, es[1..][i].name)) && p != Join(bind1, es[1..][i].name)
          {
            assert es[1..][i] == es[i + 1];
          }
        }
      }
    }
  }

  /** When the rebuild goes through, every copy in `bind1` is what `Built` says,
      and every directory that is not ignored has its copy; provided the entries
      are those `bind0` holds, with distinct names, and none has a copy yet. */
  lemma {:induction false} RebuildDone(drv: Driver, env: Env, w: World, bind0: Path, d: Path, bind1: Path, es: seq<DirEntry>)
    requires Apart(bind0, bind1) && Consistent(w.nodes, bind0, es) && DistinctNames(es)
    requires forall i :: 0 <= i < |es| ==> Join(bind1, es[i].name) !in w.nodes
    ensures var s := Rebuild(drv, env, w, bind0, d, bind1, es);
      s.outcome.Done? ==>
        && (forall i :: 0 <= i < |es| && Join(bind1, es[i].name) in s.world.nodes ==>
              Built(drv, w.nodes, s.world.nodes, bind0, d, bind1, es[i]))
        && (forall i :: 0 <= i < |es| && es[i].kind == KDir && !IsIgnoredTarget(drv, Join(d, es[i].name)) ==>
              Join(bind1, es[i].name) in s.world.nodes)
    decreases |es|
  {
    if es != [] {
      var e := es[0];
      var rest := es[1..];
      RebuildOneFrame(drv, env, w, bind0, d, bind1, e);
      RebuildOneBuilt(drv, env, w, bind0, d, bind1, e);
      var s1 := RebuildOne(drv, env, w, bind0, d, bind1, e);
      if s1.outcome.Done? {
        RestSpared(w.nodes, s1.world.nodes, bind0, bind1, es);
        RebuildDone(drv, env, s1.world, bind0, d, bind1, rest);
        RebuildFrame(drv, env, s1.world, bind0, d, bind1, rest);
        var s := Rebuild(drv, env, s1.world, bind0, d, bind1, rest);
        if s.outcome.Done? {
          assert SameAt(s1.world.nodes, s.world.nodes, Join(bind1, e.name));
          forall i | 1 <= i < |es|
            ensures Join(bind1, es[i].name) in s.world.nodes ==> Built(drv, w.nodes, s.world.nodes, bind0, d, bind1, es[i])
            ensures es[i].kind == KDir && !IsIgnoredTarget(drv, Join(d, es[i].name)) ==> Join(bind1, es[i].name) in s.world.nodes
          {
            assert es[i] == rest[i - 1];
          }
        }
      }
    }
  }

  /** After the first entry, the others still read what they read before and
      still have no copy, and the first entry's copy is spared by the rest. */
  lemma RestSpared(ns: Nodes, ns1: Nodes, bind0: Path, bind1: Path, es: seq<DirEntry>)
    requires es != [] && Apart(bind0, bind1) && Consistent(ns, bind0, es) && DistinctNames(es)
    requires forall i :: 0 <= i < |es| ==> Join(bind1, es[i].name) !in ns
    requires forall p :: !Below(p, Join(bind0, es[0].name)) && p != Join(bind1, es[0].name) ==> SameAt(ns, ns1, p)
    ensures Consistent(ns1, bind0, es[1..]) && DistinctNames(es[1..])
    ensures forall i :: 0 <= i < |es[1..]| ==> Join(bind1, es[1..][i].name) !in ns1
    ensures forall i :: 1 <= i < |es| ==> SameAt(ns, ns1, Join(bind0, es[i].name))
    ensures Spared(Join(bind1, es[0].name), bind0, bind1, es[1..])
  {
    var e := es[0];
    var rest := es[1..];
    forall i | 1 <= i < |es|
      ensures SameAt(ns, ns1, Join(bind0, es[i].name))
      ensures Join(bind1, es[i].name) !in ns1
      ensures !Below(Join(bind1, e.name), Join(bind0, es[i].name))
      ensures Join(bind1, e.name) != Join(bind1, es[i].name)
    {
      SiblingsApart(bind0, es[i].name, e.name);
      SiblingsApart(bind1, es[i].name, e.name);
      ApartEntries(bind0, bind1, es[i].name, e.name);
      ApartEntries(bind0, bind1, e.name, es[i].name);
    }
    forall i | 0 <= i < |rest| ensures EntryOf(ns1, bind0, rest[i]) && Join(bind1, rest[i].name) !in ns1 {
      assert rest[i] == es[i + 1];
    }
  }

  /** The result of steps 1-3 for one directory: bind, tmpfs, shadow directory. */
  datatype Shadowed = Shadowed(world: World, shadow: Path, outcome: Outcome)

  /** Steps 1-3 for directory `d` with staging directory `bind0`. */
  function MakeShadow(env: Env, w: World, bind0: Path, d: Path): Shadowed
  {
    var b := Bind(env, w, d, bind0);
    if b.res.Err? then Shadowed(b.world, [], Failed(BindFailed(d, b.res.fault)))
    else
      var t := MountTmpfs(env, b.world, d);
      if t.res.Err? then Shadowed(t.world, [], Failed(TmpfsFailed(d, t.res.fault)))
      else
        var mk := MkdirTemp(env, t.world, d, ShadowPrefix);
        if mk.res.Err? then Shadowed(mk.world, [], Failed(ShadowCreateFailed(d, mk.res.fault)))
        else Shadowed(mk.world, mk.res.value, Done)
  }

  /** A stop at step 1, 2 or 3 for `d`, after the calls made from `log0` on:
      exactly those up to and including the one that failed. */
  predicate EarlyStop(e: CopyUpError, log: seq<Op>, log0: seq<Op>, bind0: Path, d: Path)
  {
    match e
    case BindFailed(dir, _) => dir == d && log == log0 + [BindOp(d, bind0)]
    case TmpfsFailed(dir, _) => dir == d && log == log0 + [BindOp(d, bind0), TmpfsOp(d)]
    case ShadowCreateFailed(dir, _) =>
      dir == d && log == log0 + [BindOp(d, bind0), TmpfsOp(d)] + [MkdirTempOp(d, ShadowPrefix)]
    case _ => false
  }

  /** A stop at step 4 or 5 for `d` with shadow directory `bind1`, where `start` is
      the log once the staging directory was listed: either that listing failed
      (it is reported under `d`), or the log went on from `start` and the error
      is a subdirectory entry of the rebuild, the shadow listing, or the link phase. */
  predicate LateStop(e: CopyUpError, log: seq<Op>, start: seq<Op>, d: Path, bind1: Path)
  {
    match e
    case ReadDirFailed(dir, _) => (dir == d && log == start) || (dir == bind1 && start <= log)
    case MkdirFailed(_, _) => start <= log
    case EntryMountFailed(_, _, _) => start <= log
    case ReadlinkFailed(_, _) => start <= log
    case RemoveFailed(_, _) => start <= log
    case SymlinkFailed(_, _, _) => start <= log
    case _ => false
  }

  /** Steps 1-3 go bind, tmpfs, shadow directory, in that order. When they go
      through, the shadow directory has the name `os.MkdirTemp` picked at the third
      call; when they stop, the error names the call that failed, and the calls
      made are exactly those up to and including it. */
  lemma MakeShadowSteps(env: Env, w: World, bind0: Path, d: Path)
    ensures var m := MakeShadow(env, w, bind0, d);
      && (m.outcome.Done? ==>
            && m.shadow == Join(d, ShadowName(env, w))
            && m.world.log == w.log + [BindOp(d, bind0), TmpfsOp(d)] + [MkdirTempOp(d, ShadowPrefix)])
      && (m.outcome.Failed? ==> EarlyStop(m.outcome.error, m.world.log, w.log, bind0, d))
  {
    var b := Bind(env, w, d, bind0);
    if b.res.Ok? {
      var t := MountTmpfs(env, b.world, d);
      LogChain(w.log, b.world.log, t.world.log, BindOp(d, bind0), TmpfsOp(d));
      if t.res.Ok? {
        SameShadowName(env, w, t.world);
      }
    }
  }

  /** What steps 1-3 leave, compared with the view `ns0` before: the staging
      directory shows what `d` held; inside `d` there is nothing but the empty
      shadow directory; nothing else changed. */
  ghost predicate Staged(ns0: Nodes, ns: Nodes, bind0: Path, d: Path, shadow: Path)
  {
    && Apart(bind0, d) && Apart(bind0, shadow) && Below(shadow, d)
    && shadow in ns && ns[shadow] == Dir
    && (forall p :: !Below(p, bind0) && !Below(p, d) ==> SameAt(ns0, ns, p))
    && Mirrors(ns0, d, ns, bind0)
    && (forall p :: Below(p, d) && p in ns ==> p == shadow)
  }

  /** The views after each of steps 1-3, as the primitives leave them, give `Staged`. */
  lemma StagedSteps(ns0: Nodes, ns1: Nodes, ns2: Nodes, ns3: Nodes, bind0: Path, d: Path, shadow: Path)
    requires Apart(bind0, d) && Apart(bind0, shadow) && Below(shadow, d)
    requires forall p :: !Below(p, bind0) ==> SameAt(ns0, ns1, p)
    requires Mirrors(ns0, d, ns1, bind0)
    requires forall p :: !Below(p, d) ==> SameAt(ns1, ns2, p)
    requires forall p :: Below(p, d) ==> p !in ns2
    requires ns3 == ns2[shadow := Dir]
    ensures Staged(ns0, ns3, bind0, d, shadow)
  {
    forall r | r != [] ensures !Touches(Join(bind0, r), d) {
      JoinBelow(bind0, r);
      ApartDisjoint(bind0, d, Join(bind0, r));
    }
    forall r | r != [] ensures Join(bind0, r) != shadow {
      JoinBelow(bind0, r);
      ApartDisjoint(bind0, shadow, Join(bind0, r));
    }
  }

  /** What steps 1-3 leave when they go through, provided the staging directory
      and `d` are apart (neither inside the other). */
  lemma MakeShadowView(env: Env, w: World, bind0: Path, d: Path)
    requires Apart(bind0, d)
    ensures var m := MakeShadow(env, w, bind0, d);
      m.outcome.Done? ==>
        && m.shadow == Join(d, ShadowName(env, w))
        && IsDir(w.nodes, d)
        && Staged(w.nodes, m.world.nodes, bind0, d, m.shadow)
  {
    MakeShadowSteps(env, w, bind0, d);
    var b := Bind(env, w, d, bind0);
    var t := MountTmpfs(env, b.world, d);
    var mk := MkdirTemp(env, t.world, d, ShadowPrefix);
    if b.res.Ok? && t.res.Ok? && mk.res.Ok? {
      var name := TempName(env, |t.world.log|, ShadowPrefix);
      BindOk(env, w, d, bind0);
      TmpfsOk(env, b.world, d);
      ShadowNameIsName(env, |t.world.log|);
      EntryApart(bind0, d, name);
      StagedSteps(w.nodes, b.world.nodes, t.world.nodes, mk.world.nodes, bind0, d, Join(d, name));
    }
  }

  /** Step 4: list the staging directory and rebuild its entries in the shadow. */
  function RebuildShadow(drv: Driver, env: Env, w: World, bind0: Path, d: Path, bind1: Path): Step
  {
    var rd := ReadDir(env, w, bind0);
    if rd.res.Err? then Step(rd.world, Failed(ReadDirFailed(d, rd.res.fault)))
    else Rebuild(drv, env, rd.world, bind0, d, bind1, rd.res.value)
  }

  /** What `bind1/n`, the copy of original entry `n` of `d` in the shadow directory
      `name`, may be: `n` was an original entry, not ignored, and either both are
      directories or the original was a regular file and the copy is one holding
      a prefix of its bytes. */
  predicate Copied(drv: Driver, ns0: Nodes, ns: Nodes, d: Path, name: string, n: string)
    requires Join(Join(d, name), n) in ns
  {
    var orig := Join(d, n);
    var made := ns[Join(Join(d, name), n)];
    && orig in ns0 && !IsIgnoredTarget(drv, orig)
    && ((ns0[orig] == Dir && made == Dir)
        || (ns0[orig].File? && made.File? && made.content <= ns0[orig].content))
  }

  /** What steps 1-4 leave, compared with the view `ns0` before: inside `d` only the
      shadow directory `name` and, directly in it, the copies; the copies are what
      `Copied` allows, and every subdirectory not ignored has one; nothing changed
      outside `d` and the staging directory. */
  ghost predicate RebuiltShadow(drv: Driver, ns0: Nodes, ns: Nodes, bind0: Path, d: Path, name: string)
  {
    var shadow := Join(d, name);
    && IsName(name) && Apart(bind0, d) && Join(d, name) !in ns0
    && IsDir(ns, d) && shadow in ns && ns[shadow] == Dir
    && (forall p :: !Below(p, bind0) && !Below(p, d) ==> SameAt(ns0, ns, p))
    && (forall p :: Below(p, d) && p in ns ==> p == shadow || (Below(p, shadow) && IsName(p[|shadow| + 1..])))
    && (forall n :: IsName(n) && Join(shadow, n) in ns ==> Copied(drv, ns0, ns, d, name, n))
    && (forall n :: IsName(n) && Join(d, n) in ns0 && ns0[Join(d, n)] == Dir && !IsIgnoredTarget(drv, Join(d, n)) ==>
          Join(shadow, n) in ns)
  }

  /** What `RebuildDone` and `RebuildFrame` say about a rebuild from `ns3` to `ns4`
      over the listing `es` of the staging directory. */
  ghost predicate RebuildResult(drv: Driver, ns3: Nodes, ns4: Nodes, bind0: Path, d: Path, shadow: Path, es: seq<DirEntry>)
  {
    && Consistent(ns3, bind0, es)
    && (forall n :: IsName(n) && Join(bind0, n) in ns3 ==> n in Names(es))
    && (forall i :: 0 <= i < |es| && Join(shadow, es[i].name) in ns4 ==>
          Built(drv, ns3, ns4, bind0, d, shadow, es[i]))
    && (forall i :: 0 <= i < |es| && es[i].kind == KDir && !IsIgnoredTarget(drv, Join(d, es[i].name)) ==>
          Join(shadow, es[i].name) in ns4)
    && (forall p :: Spared(p, bind0, shadow, es) ==> SameAt(ns3, ns4, p))
  }

  /** Inside `d`, only the copies can be changed by the rebuild. */
  lemma SparedInside(ns0: Nodes, ns3: Nodes, bind0: Path, d: Path, shadow: Path, es: seq<DirEntry>, p: Path)
    requires Apart(bind0, d) && Touches(p, d)
    ensures Spared(p, bind0, shadow, es) || IsEntryPath(p, shadow, es)
  {
    if !IsEntryPath(p, shadow, es) {
      forall i | 0 <= i < |es| ensures !Below(p, Join(bind0, es[i].name)) && p != Join(shadow, es[i].name) {
        JoinBelowAny(bind0, es[i].name);
        TouchesTransitive(p, Join(bind0, es[i].name), bind0);
        ApartDisjoint(bind0, d, p);
      }
    }
  }

  lemma RebuiltOutside(drv: Driver, ns0: Nodes, ns3: Nodes, ns4: Nodes, bind0: Path, d: Path, name: string, es: seq<DirEntry>)
    requires Staged(ns0, ns3, bind0, d, Join(d, name)) && IsName(name)
    requires RebuildResult(drv, ns3, ns4, bind0, d, Join(d, name), es)
    ensures forall p :: !Below(p, bind0) && !Below(p, d) ==> SameAt(ns0, ns4, p)
    ensures Join(d, name) in ns4 && ns4[Join(d, name)] == Dir
  {
    var shadow := Join(d, name);
    forall p | !Below(p, bind0) && !Below(p, d) ensures Spared(p, bind0, shadow, es) {
      forall i | 0 <= i < |es| ensures !Below(p, Join(bind0, es[i].name)) && p != Join(shadow, es[i].name) {
        JoinBelowAny(bind0, es[i].name);
        TouchesTransitive(p, Join(bind0, es[i].name), bind0);
        JoinBelowAny(shadow, es[i].name);
        TouchesTransitive(Join(shadow, es[i].name), shadow, d);
      }
    }
    SparedInside(ns0, ns3, bind0, d, shadow, es, shadow);
  }

  lemma RebuiltInside(drv: Driver, ns0: Nodes, ns3: Nodes, ns4: Nodes, bind0: Path, d: Path, name: string, es: seq<DirEntry>)
    requires Staged(ns0, ns3, bind0, d, Join(d, name)) && IsName(name)
    requires RebuildResult(drv, ns3, ns4, bind0, d, Join(d, name), es)
    ensures forall p :: Below(p, d) && p in ns4 ==>
      p == Join(d, name) || (Below(p, Join(d, name)) && IsName(p[|Join(d, name)| + 1..]))
  {
    var shadow := Join(d, name);
    forall p | Below(p, d) && p in ns4
      ensures p == shadow || (Below(p, shadow) && IsName(p[|shadow| + 1..]))
    {
      SparedInside(ns0, ns3, bind0, d, shadow, es, p);
      if !Spared(p, bind0, shadow, es) {
        var i :| 0 <= i < |es| && p == Join(shadow, es[i].name);
        JoinBelow(shadow, es[i].name);
      }
    }
  }

  lemma RebuiltCopies(drv: Driver, ns0: Nodes, ns3: Nodes, ns4: Nodes, bind0: Path, d: Path, name: string, es: seq<DirEntry>, n: string)
    requires Staged(ns0, ns3, bind0, d, Join(d, name)) && IsName(name) && IsName(n)
    requires RebuildResult(drv, ns3, ns4, bind0, d, Join(d, name), es)
    requires Join(Join(d, name), n) in ns4
    ensures Copied(drv, ns0, ns4, d, name, n)
  {
    var shadow := Join(d, name);
    var p := Join(shadow, n);
    JoinBelow(shadow, n);
    TouchesTransitive(p, shadow, d);
    SparedInside(ns0, ns3, bind0, d, shadow, es, p);
    assert p !in ns3;
    var i :| 0 <= i < |es| && p == Join(shadow, es[i].name);
    JoinInjective(shadow, n, es[i].name);
    assert Built(drv, ns3, ns4, bind0, d, shadow, es[i]);
    assert EntryOf(ns3, bind0, es[i]);
    assert ns3[Join(bind0, n)] == ns0[Join(d, n)];
  }

  lemma RebuiltDirs(drv: Driver, ns0: Nodes, ns3: Nodes, ns4: Nodes, bind0: Path, d: Path, name: string, es: seq<DirEntry>, n: string)
    requires Staged(ns0, ns3, bind0, d, Join(d, name)) && IsName(n)
    requires RebuildResult(drv, ns3, ns4, bind0, d, Join(d, name), es)
    requires Join(d, n) in ns0 && ns0[Join(d, n)] == Dir && !IsIgnoredTarget(drv, Join(d, n))
    ensures Join(Join(d, name), n) in ns4
  {
    assert Join(bind0, n) in ns3;
    assert n in Names(es);
    var i :| 0 <= i < |es| && Names(es)[i] == n;
    assert EntryOf(ns3, bind0, es[i]);
  }

  /** Steps 1-4 on the view `Staged` describes: when the rebuild goes through, the
      result is `RebuiltShadow`, provided no original entry of `d` has the shadow
      directory's name. */
  lemma RebuildView(drv: Driver, env: Env, w3: World, ns0: Nodes, bind0: Path, d: Path, name: string)
    requires Staged(ns0, w3.nodes, bind0, d, Join(d, name)) && IsName(name)
    requires IsDir(ns0, d) && Join(d, name) !in ns0
    ensures var r := RebuildShadow(drv, env, w3, bind0, d, Join(d, name));
      r.outcome.Done? ==> RebuiltShadow(drv, ns0, r.world.nodes, bind0, d, name)
  {
    var shadow := Join(d, name);
    var ns3 := w3.nodes;
    var rd := ReadDir(env, w3, bind0);
    if rd.res.Ok? {
      var es := rd.res.value;
      ListingSpec(ns3, bind0);
      forall i | 0 <= i < |es| ensures Join(shadow, es[i].name) !in ns3 {
        JoinBelow(shadow, es[i].name);
        TouchesTransitive(Join(shadow, es[i].name), shadow, d);
      }
      RebuildDone(drv, env, rd.world, bind0, d, shadow, es);
      RebuildFrame(drv, env, rd.world, bind0, d, shadow, es);
      var r := Rebuild(drv, env, rd.world, bind0, d, shadow, es);
      if r.outcome.Done? {
        var ns4 := r.world.nodes;
        assert RebuildResult(drv, ns3, ns4, bind0, d, shadow, es);
        RebuiltOutside(drv, ns0, ns3, ns4, bind0, d, name, es);
        RebuiltInside(drv, ns0, ns3, ns4, bind0, d, name, es);
        forall n | IsName(n) && Join(shadow, n) in ns4 ensures Copied(drv, ns0, ns4, d, name, n) {
          RebuiltCopies(drv, ns0, ns3, ns4, bind0, d, name, es, n);
        }
        forall n | IsName(n) && Join(d, n) in ns0 && ns0[Join(d, n)] == Dir && !IsIgnoredTarget(drv, Join(d, n))
          ensures Join(shadow, n) in ns4
        {
          RebuiltDirs(drv, ns0, ns3, ns4, bind0, d, name, es, n);
        }
        assert !Below(d, bind0) && !Below(d, d);
      }
    }
  }

  /** Step 5: list the shadow directory and link each of its entries into `d`. */
  function LinkShadow(env: Env, w: World, d: Path, bind1: Path): Step
  {
    var rd := ReadDir(env, w, bind1);
    if rd.res.Err? then Step(rd.world, Failed(ReadDirFailed(bind1, rd.res.fault)))
    else LinkEntries(env, rd.world, bind1, d, rd.res.value)
  }

  /** What copying up `d` with shadow directory `name` leaves, compared with the
      view `ns0` before: the shadow directory holds a copy of each original
      subdirectory and regular file that is not ignored (a regular file may be
      missing, or hold only a prefix of its bytes); each copy is reached from `d`
      through a symlink `name/n`, and nothing else is in `d`; a copied
      subdirectory is empty; nothing changed outside `d` and the staging directory. */
  ghost predicate CopiedUp(drv: Driver, ns0: Nodes, ns: Nodes, bind0: Path, d: Path, name: string)
  {
    var shadow := Join(d, name);
    && shadow in ns && ns[shadow] == Dir
    && (forall p :: !Below(p, bind0) && !Below(p, d) ==> SameAt(ns0, ns, p))
    && (forall n :: IsName(n) && n != name ==> (Join(d, n) in ns <==> Join(shadow, n) in ns))
    && (forall n :: IsName(n) && n != name && Join(d, n) in ns ==> ns[Join(d, n)] == Symlink(Join(name, n)))
    && (forall n :: IsName(n) && Join(shadow, n) in ns ==> Copied(drv, ns0, ns, d, name, n))
    && (forall n :: IsName(n) && Join(d, n) in ns0 && ns0[Join(d, n)] == Dir && !IsIgnoredTarget(drv, Join(d, n)) ==>
          Join(shadow, n) in ns)
    && (forall p :: Below(p, d) && p in ns ==> IsName(p[|d| + 1..]) || (Below(p, shadow) && IsName(p[|shadow| + 1..])))
  }

  /** What becomes of original entry `n` of `d` once `d` is copied up: it is still
      there (as a link) only if it was a regular file or a directory that is not
      ignored, and each such directory is always still there as the link to its
      copy. Ignored entries, symlinks and special files are gone, and their names
      are free in the shadow directory too. */
  lemma EntryFate(drv: Driver, ns0: Nodes, ns: Nodes, bind0: Path, d: Path, name: string, n: string)
    requires CopiedUp(drv, ns0, ns, bind0, d, name)
    requires IsName(n) && n != name
    ensures Join(d, n) in ns ==>
      && Join(d, n) in ns0 && !IsIgnoredTarget(drv, Join(d, n))
      && (ns0[Join(d, n)] == Dir || ns0[Join(d, n)].File?)
    ensures Join(d, n) in ns0 && ns0[Join(d, n)] == Dir && !IsIgnoredTarget(drv, Join(d, n)) ==>
      && Join(d, n) in ns && ns[Join(d, n)] == Symlink(Join(name, n))
      && Join(Join(d, name), n) in ns && ns[Join(Join(d, name), n)] == Dir
  {
    var copy := Join(Join(d, name), n);
    if Join(d, n) in ns {
      assert copy in ns;
      assert Copied(drv, ns0, ns, d, name, n);
    }
  }

  /** Every copy in the shadow directory is empty: a copied subdirectory keeps
      none of the original's contents. */
  lemma CopiesEmpty(drv: Driver, ns0: Nodes, ns: Nodes, bind0: Path, d: Path, name: string)
    requires CopiedUp(drv, ns0, ns, bind0, d, name) && IsName(name)
    ensures forall n, p :: IsName(n) && Below(p, Join(Join(d, name), n)) ==> p !in ns
  {
    var shadow := Join(d, name);
    forall n, p | IsName(n) && Below(p, Join(shadow, n)) ensures p !in ns {
      DeeperThanEntry(shadow, n, p);
      DeeperThanEntry(d, name, p);
    }
  }

  /** Each entry of the rebuilt shadow directory is a copy of an original entry,
      so its name differs from the shadow directory's, it is no symlink, and its
      link goes to `name/n`. */
  lemma ShadowEntry(drv: Driver, ns0: Nodes, ns4: Nodes, bind0: Path, d: Path, name: string, e: DirEntry)
    requires RebuiltShadow(drv, ns0, ns4, bind0, d, name)
    requires EntryOf(ns4, Join(d, name), e)
    ensures e.name != name && e.kind != KSymlink
    ensures LinkTarget(ns4, Join(d, name), e) == Join(name, e.name)
  {
    assert Copied(drv, ns0, ns4, d, name, e.name);
    BaseOfJoin(d, name);
  }

  /** After step 5 went through: what `LinkEntries` promises about the view `ns`
      it leaves, for the view `ns4` that steps 1-4 left and the listing `files`
      of the shadow directory. */
  ghost predicate LinksMade(ns4: Nodes, ns: Nodes, d: Path, name: string, files: seq<DirEntry>)
  {
    var shadow := Join(d, name);
    && IsName(name)
    && (forall i :: 0 <= i < |files| ==> files[i].name != name)
    && (forall n :: n in Names(files) <==> IsName(n) && Join(shadow, n) in ns4)
    && (forall i :: 0 <= i < |files| ==>
          Join(d, files[i].name) in ns && ns[Join(d, files[i].name)] == Symlink(Join(name, files[i].name)))
    && (forall p :: Untouched(p, d, files) ==> SameAt(ns4, ns, p))
    && (forall p :: p in ns ==> p in ns4 || IsEntryPath(p, d, files))
  }

  lemma LinksNamed(ns4: Nodes, ns: Nodes, d: Path, name: string, files: seq<DirEntry>, i: int)
    requires LinksMade(ns4, ns, d, name, files) && 0 <= i < |files|
    ensures IsName(files[i].name) && files[i].name != name
  {
    assert Names(files)[i] == files[i].name;
  }

  /** The shadow directory and what lies in it are left alone by the links. */
  lemma LinkedShadow(ns4: Nodes, ns: Nodes, d: Path, name: string, files: seq<DirEntry>)
    requires LinksMade(ns4, ns, d, name, files)
    ensures forall p :: Touches(p, Join(d, name)) ==> SameAt(ns4, ns, p)
  {
    var shadow := Join(d, name);
    forall p | Touches(p, shadow) ensures Untouched(p, d, files) {
      forall i | 0 <= i < |files| ensures !Touches(p, Join(d, files[i].name)) {
        LinksNamed(ns4, ns, d, name, files, i);
        SiblingsApart(d, name, files[i].name);
        if p != shadow {
          NephewApart(d, name, files[i].name, p[|shadow| + 1..]);
        }
      }
    }
  }

  lemma LinkedOutside(ns4: Nodes, ns: Nodes, d: Path, name: string, files: seq<DirEntry>)
    requires LinksMade(ns4, ns, d, name, files)
    ensures forall p :: !Below(p, d) ==> SameAt(ns4, ns, p)
  {
    forall p | !Below(p, d) ensures Untouched(p, d, files) {
      forall i | 0 <= i < |files| ensures !Touches(p, Join(d, files[i].name)) {
        LinksNamed(ns4, ns, d, name, files, i);
        JoinBelow(d, files[i].name);
        TouchesTransitive(p, Join(d, files[i].name), d);
      }
    }
  }

  /** An entry of `d` other than the shadow directory is present exactly when its
      copy is, and then it is the link to the copy. */
  lemma LinkedEntry(ns4: Nodes, ns: Nodes, d: Path, name: string, files: seq<DirEntry>, n: string)
    requires LinksMade(ns4, ns, d, name, files)
    requires IsName(n) && n != name && Join(d, n) !in ns4
    ensures Join(d, n) in ns <==> Join(Join(d, name), n) in ns
    ensures Join(d, n) in ns ==> ns[Join(d, n)] == Symlink(Join(name, n))
  {
    var shadow := Join(d, name);
    LinkedShadow(ns4, ns, d, name, files);
    JoinBelow(shadow, n);
    assert SameAt(ns4, ns, Join(shadow, n));
    if Join(d, n) in ns {
      var i :| 0 <= i < |files| && Join(d, n) == Join(d, files[i].name);
      JoinInjective(d, n, files[i].name);
      assert Names(files)[i] == n;
    }
    if Join(shadow, n) in ns {
      assert n in Names(files);
      var i :| 0 <= i < |files| && Names(files)[i] == n;
      assert files[i].name == n;
    }
  }

  /** Before the links, `d` holds nothing but the shadow directory and its contents. */
  lemma RebuiltEntryAbsent(drv: Driver, ns0: Nodes, ns4: Nodes, bind0: Path, d: Path, name: string, n: string)
    requires RebuiltShadow(drv, ns0, ns4, bind0, d, name)
    requires IsName(n) && n != name
    ensures Join(d, n) !in ns4
  {
    JoinBelow(d, n);
    SiblingsApart(d, n, name);
  }

  lemma LinkedInside(drv: Driver, ns0: Nodes, ns4: Nodes, ns: Nodes, bind0: Path, d: Path, name: string,
                     files: seq<DirEntry>)
    requires RebuiltShadow(drv, ns0, ns4, bind0, d, name)
    requires LinksMade(ns4, ns, d, name, files)
    ensures forall p :: Below(p, d) && p in ns ==>
      IsName(p[|d| + 1..]) || (Below(p, Join(d, name)) && IsName(p[|Join(d, name)| + 1..]))
  {
    var shadow := Join(d, name);
    forall p | Below(p, d) && p in ns
      ensures IsName(p[|d| + 1..]) || (Below(p, shadow) && IsName(p[|shadow| + 1..]))
    {
      if p in ns4 {
        JoinBelowAny(d, name);
      } else {
        var i :| 0 <= i < |files| && p == Join(d, files[i].name);
        LinksNamed(ns4, ns, d, name, files, i);
        JoinBelowAny(d, files[i].name);
      }
    }
  }

  /** The copies, and which of them must exist, carry over from `ns4` to `ns`. */
  lemma LinkedCopies(drv: Driver, ns0: Nodes, ns4: Nodes, ns: Nodes, bind0: Path, d: Path, name: string)
    requires RebuiltShadow(drv, ns0, ns4, bind0, d, name)
    requires forall p :: Touches(p, Join(d, name)) ==> SameAt(ns4, ns, p)
    ensures Join(d, name) in ns && ns[Join(d, name)] == Dir
    ensures forall n :: IsName(n) && Join(Join(d, name), n) in ns ==> Copied(drv, ns0, ns, d, name, n)
    ensures forall n :: IsName(n) && Join(d, n) in ns0 && ns0[Join(d, n)] == Dir && !IsIgnoredTarget(drv, Join(d, n)) ==>
      Join(Join(d, name), n) in ns
  {
    var shadow := Join(d, name);
    assert SameAt(ns4, ns, shadow);
    forall n | IsName(n) ensures SameAt(ns4, ns, Join(shadow, n)) {
      JoinBelow(shadow, n);
    }
  }

  lemma LinkedCopiedUp(drv: Driver, ns0: Nodes, ns4: Nodes, ns: Nodes, bind0: Path, d: Path, name: string,
                       files: seq<DirEntry>)
    requires RebuiltShadow(drv, ns0, ns4, bind0, d, name)
    requires LinksMade(ns4, ns, d, name, files)
    ensures CopiedUp(drv, ns0, ns, bind0, d, name)
  {
    var shadow := Join(d, name);
    LinkedShadow(ns4, ns, d, name, files);
    LinkedOutside(ns4, ns, d, name, files);
    LinkedInside(drv, ns0, ns4, ns, bind0, d, name, files);
    LinkedCopies(drv, ns0, ns4, ns, bind0, d, name);
    forall n | IsName(n) && n != name
      ensures Join(d, n) in ns <==> Join(shadow, n) in ns
      ensures Join(d, n) in ns ==> ns[Join(d, n)] == Symlink(Join(name, n))
    {
      RebuiltEntryAbsent(drv, ns0, ns4, bind0, d, name, n);
      LinkedEntry(ns4, ns, d, name, files, n);
    }
  }

  /** Step 5 on the view steps 1-4 left: when it goes through, `d` is copied up. */
  lemma LinkPhase(drv: Driver, env: Env, w4: World, ns0: Nodes, bind0: Path, d: Path, name: string)
    requires RebuiltShadow(drv, ns0, w4.nodes, bind0, d, name)
    ensures var s := LinkShadow(env, w4, d, Join(d, name));
      s.outcome.Done? ==> CopiedUp(drv, ns0, s.world.nodes, bind0, d, name)
  {
    var shadow := Join(d, name);
    var ns4 := w4.nodes;
    var rd := ReadDir(env, w4, shadow);
    if rd.res.Ok? {
      var files := rd.res.value;
      ListingSpec(ns4, shadow);
      forall i | 0 <= i < |files|
        ensures files[i].name != name && LinkTarget(ns4, shadow, files[i]) == Join(name, files[i].name)
      {
        ShadowEntry(drv, ns0, ns4, bind0, d, name, files[i]);
      }
      forall i, j | 0 <= i < |files| && 0 <= j < |files|
        ensures !Touches(Join(shadow, files[i].name), Join(d, files[j].name))
      {
        NephewApart(d, name, files[j].name, files[i].name);
      }
      assert Separated(shadow, d, files);
      var s := LinkEntries(env, rd.world, shadow, d, files);
      LinkEntriesDone(env, rd.world, shadow, d, files);
      LinkEntriesFrame(env, rd.world, shadow, d, files);
      LinkEntriesAddsOnlyLinks(env, rd.world, shadow, d, files);
      if s.outcome.Done? {
        assert LinksMade(ns4, s.world.nodes, d, name, files);
        LinkedCopiedUp(drv, ns0, ns4, s.world.nodes, bind0, d, name, files);
      }
    }
  }

  /** The loop body of `CopyUp` for one cleaned directory `d`. */
  function CopyUpDir(drv: Driver, env: Env, w: World, bind0: Path, d: Path): Step
  {
    var m := MakeShadow(env, w, bind0, d);
    if m.outcome.Failed? then Step(m.world, m.outcome)
    else FillShadow(drv, env, m.world, bind0, d, m.shadow)
  }

  /** In the model, copying up the root directory cannot go through: the tmpfs over
      `/` hides the staging directory under `/tmp`, so listing it fails. This is a
      property of the model's mount on `/`, which the kernel does not share. */
  lemma RootListingFails(drv: Driver, env: Env, w: World, bind0: Path)
    requires Below(bind0, TmpDir)
    ensures CopyUpDir(drv, env, w, bind0, AsDir(Root)).outcome.Failed?
  {
    var d := AsDir(Root);
    var b := Bind(env, w, d, bind0);
    if b.res.Ok? {
      var t := MountTmpfs(env, b.world, d);
      assert bind0 == Join(TmpDir, bind0[|TmpDir| + 1..]);
      TmpfsOverRoot(env, b.world, bind0);
      if t.res.Ok? {
        StagingStaysHidden(env, t.world, bind0);
      }
    }
  }

  /** A directory whose pipeline goes through is copied up, as `CopiedUp` says,
      unless the view already held an entry under the shadow directory's name
      (the name is picked on the fresh tmpfs, so the original entries are not
      looked at). */
  lemma CopyUpDirDone(drv: Driver, env: Env, w: World, bind0: Path, d: Path)
    requires Apart(bind0, d) && Join(d, ShadowName(env, w)) !in w.nodes
    ensures var s := CopyUpDir(drv, env, w, bind0, d);
      s.outcome.Done? ==> CopiedUp(drv, w.nodes, s.world.nodes, bind0, d, ShadowName(env, w))
  {
    var name := ShadowName(env, w);
    MakeShadowView(env, w, bind0, d);
    var m := MakeShadow(env, w, bind0, d);
    if m.outcome.Done? {
      ShadowNameIsName(env, |w.log| + 2);
      RebuildView(drv, env, m.world, w.nodes, bind0, d, name);
      var r := RebuildShadow(drv, env, m.world, bind0, d, m.shadow);
      if r.outcome.Done? {
        LinkPhase(drv, env, r.world, w.nodes, bind0, d, name);
      }
    }
  }

  /** Steps 4 and 5: rebuild the entries in the shadow directory, then link them. */
  function FillShadow(drv: Driver, env: Env, w: World, bind0: Path, d: Path, bind1: Path): Step
  {
    var r := RebuildShadow(drv, env, w, bind0, d, bind1);
    if r.outcome.Failed? then r
    else LinkShadow(env, r.world, d, bind1)
  }

  /** Where steps 4 and 5 can stop: the staging listing (reported under `d`) right
      away, or after it a subdirectory entry of the rebuild, the shadow listing,
      or the link phase. */
  lemma FillShadowFailed(drv: Driver, env: Env, w: World, bind0: Path, d: Path, bind1: Path)
    ensures var s := FillShadow(drv, env, w, bind0, d, bind1);
      s.outcome.Failed? ==> LateStop(s.outcome.error, s.world.log, w.log + [ReadDirOp(bind0)], d, bind1)
  {
    var rd := ReadDir(env, w, bind0);
    if rd.res.Ok? {
      var r := Rebuild(drv, env, rd.world, bind0, d, bind1, rd.res.value);
      if r.outcome.Done? {
        var rd1 := ReadDir(env, r.world, bind1);
        if rd1.res.Ok? {
          LinkEntriesFrame(env, rd1.world, bind1, d, rd1.res.value);
          LinkEntriesNoReadDirError(env, rd1.world, bind1, d, rd1.res.value);
        }
      }
    }
  }

  /** The calls the pipeline for `d` makes before the rebuild, in order. */
  function Prelude(bind0: Path, d: Path): seq<Op>
  {
    [BindOp(d, bind0), TmpfsOp(d), MkdirTempOp(d, ShadowPrefix), ReadDirOp(bind0)]
  }

  lemma PreludeLog(log0: seq<Op>, log3: seq<Op>, bind0: Path, d: Path)
    requires log3 == log0 + [BindOp(d, bind0), TmpfsOp(d)] + [MkdirTempOp(d, ShadowPrefix)]
    ensures log3 + [ReadDirOp(bind0)] == log0 + Prelude(bind0, d)
  {
  }

  /** Where the pipeline for `d` can stop, and what it did by then: a failure of
      steps 1-3 as `MakeShadowSteps` says; otherwise the four calls of `Prelude`
      come first, and the error is the staging listing (reported under `d`), a
      subdirectory entry of the rebuild, the shadow listing, or the link phase. */
  lemma CopyUpDirFailed(drv: Driver, env: Env, w: World, bind0: Path, d: Path)
    ensures var s := CopyUpDir(drv, env, w, bind0, d);
      s.outcome.Failed? ==>
        || EarlyStop(s.outcome.error, s.world.log, w.log, bind0, d)
        || LateStop(s.outcome.error, s.world.log, w.log + Prelude(bind0, d), d, Join(d, ShadowName(env, w)))
  {
    MakeShadowSteps(env, w, bind0, d);
    var m := MakeShadow(env, w, bind0, d);
    var s := CopyUpDir(drv, env, w, bind0, d);
    if m.outcome.Done? {
      assert s == FillShadow(drv, env, m.world, bind0, d, m.shadow);
      FillShadowFailed(drv, env, m.world, bind0, d, m.shadow);
      PreludeLog(w.log, m.world.log, bind0, d);
    } else {
      assert s == Step(m.world, m.outcome);
    }
  }

  /** `CopyUp(dirs)`: create the staging directory, then copy up each directory in
      turn. Returns the cleaned directories copied before the first failure. */
  function CopyUp(drv: Driver, env: Env, w: World, dirs: seq<Path>): (r: Report)
    ensures r.copied <= CleanAll(env, dirs)
    ensures r.outcome.Done? ==> r.copied == CleanAll(env, dirs)
    ensures TmpDir !in r.copied
  {
    var b := MkdirTemp(env, w, TmpDir, StagingPrefix);
    if b.res.Err? then Report(b.world, [], Failed(StagingCreateFailed(b.res.fault)))
    else
      var bind0 := b.res.value;
      ForEachDir(env, b.world, dirs, [], (w', d) => CopyUpDir(drv, env, w', bind0, d))
  }

  /** The staging directory cannot be created exactly when the call reports
      `StagingCreateFailed`; it then returns no directories, and the call made
      changed nothing but the log. */
  lemma StagingFailure(drv: Driver, env: Env, w: World, dirs: seq<Path>)
    ensures var b := MkdirTemp(env, w, TmpDir, StagingPrefix);
      var r := CopyUp(drv, env, w, dirs);
      && (b.res.Err? <==> r.outcome.Failed? && r.outcome.error.StagingCreateFailed?)
      && (b.res.Err? ==>
            && r.copied == []
            && r.world.nodes == w.nodes && r.world.mounts == w.mounts
            && r.world.log == w.log + [MkdirTempOp(TmpDir, StagingPrefix)])
  {
    var b := MkdirTemp(env, w, TmpDir, StagingPrefix);
    if b.res.Ok? {
      var bind0 := b.res.value;
      var pipeline := (w', d) => CopyUpDir(drv, env, w', bind0, d);
      ForEachDirFailedBy(env, b.world, dirs, [], pipeline);
      forall w', d ensures pipeline(w', d).outcome.Failed? ==> !pipeline(w', d).outcome.error.StagingCreateFailed? {
        CopyUpDirFailed(drv, env, w', bind0, d);
      }
    }
  }
}
