/** The contract both copy-up drivers implement: process the target directories in
    order, stop at the first error, and hand back the directories completed before it.

    The loop that does this is the same in both drivers (clean the path, refuse
    `/tmp`, run the driver's per-directory pipeline, append on success); it is
    written once here, parametrised by the per-directory pipeline. */
module CopyUpCommon {
  import opened Strings
  import opened Paths
  import opened FileSystem

  /** Why a call stopped. Each carries the directory or paths the failing
      operation named and, for a primitive, the fault it returned. */
  datatype CopyUpError =
    | StagingCreateFailed(fault: Fault)
    | InvalidTarget(dir: Path)
    | BindFailed(dir: Path, fault: Fault)
    | TmpfsFailed(dir: Path, fault: Fault)
    | ShadowCreateFailed(dir: Path, fault: Fault)
    | MoveFailed(src: Path, dst: Path, fault: Fault)
    | ReadDirFailed(dir: Path, fault: Fault)
    | MkdirFailed(path: Path, fault: Fault)
    | EntryMountFailed(src: Path, dst: Path, fault: Fault)
    | ReadlinkFailed(path: Path, fault: Fault)
    | RemoveFailed(path: Path, fault: Fault)
    | SymlinkFailed(target: Path, link: Path, fault: Fault)

  datatype Outcome = Done | Failed(error: CopyUpError)

  /** The world after one stage of work on a directory, and whether it went through. */
  datatype Step = Step(world: World, outcome: Outcome)

  /** What `CopyUp` returns (the directories copied up, and an error or none),
      together with the world it leaves behind. */
  datatype Report = Report(world: World, copied: seq<Path>, outcome: Outcome)

  /** The staging directory's name prefix under `/tmp`. */
  const StagingPrefix: string := "rootlesskit-b"

  /** The shadow directory's name prefix inside a target directory. */
  const ShadowPrefix: string := ".ro"

  /** The shadow directory's name, for the pipeline started at `w`: `os.MkdirTemp`
      is the third call either pipeline makes. */
  function ShadowName(env: Env, w: World): string
  {
    TempName(env, |w.log| + 2, ShadowPrefix)
  }

  lemma SameShadowName(env: Env, w: World, w2: World)
    requires |w2.log| == |w.log| + 2
    ensures TempName(env, |w2.log|, ShadowPrefix) == ShadowName(env, w)
  {
  }

  /** Two calls logged one after the other. */
  lemma LogChain(l0: seq<Op>, l1: seq<Op>, l2: seq<Op>, a: Op, b: Op)
    requires l1 == l0 + [a] && l2 == l1 + [b]
    ensures l2 == l0 + [a, b] && |l2| == |l0| + 2
  {
  }

  /** Every name `os.MkdirTemp` picks for a shadow directory is a plain entry name. */
  lemma ShadowNameIsName(env: Env, step: nat)
    ensures IsName(TempName(env, step, ShadowPrefix))
  {
    var n := TempName(env, step, ShadowPrefix);
    var k := Digits(env.suffix(step));
    assert n == ShadowPrefix + k;
    forall i | 0 <= i < |n| ensures n[i] != Sep {
      if i >= |ShadowPrefix| {
        assert n[i] == k[i - |ShadowPrefix|];
      }
    }
  }

  /** The shadow directory `os.MkdirTemp` creates in the root is a direct entry of
      it, never the staging directory under `/tmp`: in the model, a staging
      directory out of view stays out of view. */
  lemma StagingStaysHidden(env: Env, w: World, bind0: Path)
    requires Below(bind0, TmpDir) && bind0 !in w.nodes
    ensures bind0 !in MkdirTemp(env, w, AsDir(Root), ShadowPrefix).world.nodes
  {
    var name := TempName(env, |w.log|, ShadowPrefix);
    ShadowNameIsName(env, |w.log|);
    var shadow := Join(AsDir(Root), name);
    assert bind0 == Join(TmpDir, bind0[|TmpDir| + 1..]);
    if |bind0| == |shadow| {
      assert bind0[4] == Sep && shadow[4] == name[3];
    }
  }

  /** Each input directory as `filepath.Clean` returns it, in input order. */
  function CleanAll(env: Env, dirs: seq<Path>): (r: seq<Path>)
    ensures |r| == |dirs|
    ensures forall i :: 0 <= i < |dirs| ==> r[i] == env.clean(dirs[i])
    decreases |dirs|
  {
    if dirs == [] then [] else [env.clean(dirs[0])] + CleanAll(env, dirs[1..])
  }

  lemma CleanAllCons(env: Env, dirs: seq<Path>)
    requires dirs != []
    ensures CleanAll(env, dirs) == [env.clean(dirs[0])] + CleanAll(env, dirs[1..])
  {
  }

  /** Cleaning a concatenation cleans each part: the directories a loop over
      `a + b` reports are those it reports for `a` followed by those for `b`. */
  lemma {:induction false} CleanAllAppend(env: Env, a: seq<Path>, b: seq<Path>)
    ensures CleanAll(env, a + b) == CleanAll(env, a) + CleanAll(env, b)
    decreases |a|
  {
    if a == [] {
      assert a + b == b;
    } else {
      assert (a + b)[0] == a[0] && (a + b)[1..] == a[1..] + b;
      CleanAllAppend(env, a[1..], b);
    }
  }

  /** `list` holds `p`, by exact string comparison: no cleaning, no prefix match. */
  function Listed(list: seq<Path>, p: Path): (b: bool)
    ensures b <==> p in list
  {
    if list == [] then false
    else if p == list[0] then true
    else Listed(list[1..], p)
  }

  /** The loop over the target directories, after `copied` are done: each is
      cleaned, `/tmp` is refused, and `pipeline` runs on the others one at a time
      until one fails. The pipeline gets the directory in the form `AsDir` gives,
      the list of copied directories the cleaned path. */
  function ForEachDir(env: Env, w: World, dirs: seq<Path>, copied: seq<Path>,
                      pipeline: (World, Path) -> Step): (r: Report)
    ensures copied <= r.copied <= copied + CleanAll(env, dirs)
    ensures r.outcome.Done? ==> r.copied == copied + CleanAll(env, dirs)
    ensures r.outcome.Failed? ==> |r.copied| < |copied| + |dirs|
    ensures forall i :: |copied| <= i < |r.copied| ==> r.copied[i] != TmpDir
    decreases |dirs|
  {
    if dirs == [] then Report(w, copied, Done)
    else
      var d := env.clean(dirs[0]);
      if d == TmpDir then Report(w, copied, Failed(InvalidTarget(d)))
      else
        var s := pipeline(w, AsDir(d));
        if s.outcome.Failed? then Report(s.world, copied, s.outcome)
        else
          var r := ForEachDir(env, s.world, dirs[1..], copied + [d], pipeline);
          CleanAllCons(env, dirs);
          Extended(copied, d, CleanAll(env, dirs[1..]), r.copied);
          r
  }

  /** The copied list after one more directory `d`, seen from before it. */
  lemma Extended(copied: seq<Path>, d: Path, rest: seq<Path>, c: seq<Path>)
    requires copied + [d] <= c <= copied + [d] + rest
    requires d != TmpDir && forall i :: |copied| + 1 <= i < |c| ==> c[i] != TmpDir
    ensures copied <= c <= copied + ([d] + rest)
    ensures c == copied + [d] + rest ==> c == copied + ([d] + rest)
    ensures forall i :: |copied| <= i < |c| ==> c[i] != TmpDir
  {
    assert copied + [d] + rest == copied + ([d] + rest);
    assert c[|copied|] == (copied + [d])[|copied|] == d;
  }

  /** Running the loop over `a + b` is running it over `a` and, if that went
      through, over `b` from where it stopped. */
  lemma {:induction false} ForEachDirAppend(env: Env, w: World, a: seq<Path>, b: seq<Path>,
                                            copied: seq<Path>, pipeline: (World, Path) -> Step)
    ensures var ra := ForEachDir(env, w, a, copied, pipeline);
      ForEachDir(env, w, a + b, copied, pipeline)
        == if ra.outcome.Done? then ForEachDir(env, ra.world, b, ra.copied, pipeline) else ra
    decreases |a|
  {
    if a != [] {
      assert (a + b)[0] == a[0] && (a + b)[1..] == a[1..] + b;
      var d := env.clean(a[0]);
      if d != TmpDir {
        var s := pipeline(w, AsDir(d));
        if s.outcome.Done? {
          ForEachDirAppend(env, s.world, a[1..], b, copied + [d], pipeline);
        }
      }
    } else {
      assert a + b == b;
    }
  }

  /** A directory that cleans to `/tmp` ends the loop with `InvalidTarget`: if the
      loop gets that far, it returns the world exactly as the earlier directories
      left it (nothing at all is done to `/tmp`), and the directories after it
      are never looked at. */
  lemma TmpStopsLoop(env: Env, w: World, dirs: seq<Path>, copied: seq<Path>,
                     pipeline: (World, Path) -> Step, i: nat)
    requires i < |dirs| && env.clean(dirs[i]) == TmpDir
    ensures var before := ForEachDir(env, w, dirs[..i], copied, pipeline);
      ForEachDir(env, w, dirs, copied, pipeline)
        == if before.outcome.Done? then Report(before.world, before.copied, Failed(InvalidTarget(TmpDir)))
           else before
    ensures ForEachDir(env, w, dirs, copied, pipeline)
         == ForEachDir(env, w, dirs[..i + 1], copied, pipeline)
    ensures ForEachDir(env, w, dirs, copied, pipeline).outcome.Failed?
  {
    assert dirs == dirs[..i] + dirs[i..];
    ForEachDirAppend(env, w, dirs[..i], dirs[i..], copied, pipeline);
    assert dirs[..i + 1] == dirs[..i] + dirs[i..i + 1];
    ForEachDirAppend(env, w, dirs[..i], dirs[i..i + 1], copied, pipeline);
  }

  /** Every error the loop reports is the `/tmp` refusal or an error the
      per-directory pipeline reported, together with the world it left. */
  lemma {:induction false} ForEachDirFailedBy(env: Env, w: World, dirs: seq<Path>, copied: seq<Path>,
                                              pipeline: (World, Path) -> Step)
    ensures var r := ForEachDir(env, w, dirs, copied, pipeline);
      r.outcome.Failed? ==>
        r.outcome == Failed(InvalidTarget(TmpDir))
        || exists w', d :: pipeline(w', d) == Step(r.world, r.outcome)
    decreases |dirs|
  {
    if dirs != [] {
      var d := env.clean(dirs[0]);
      if d != TmpDir {
        var s := pipeline(w, AsDir(d));
        if s.outcome.Done? {
          ForEachDirFailedBy(env, s.world, dirs[1..], copied + [d], pipeline);
        } else {
          assert pipeline(w, AsDir(d)) == Step(s.world, s.outcome);
        }
      }
    }
  }
}
