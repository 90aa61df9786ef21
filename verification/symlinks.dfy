/** Symlink construction, shared by both drivers: for each entry of a shadow
    directory `src`, replace `Join(dst, name)` with a symlink. The link points
    where the entry points if the entry is itself a symlink, and otherwise to the
    entry's path relative to `dst`, `Join(Base(src), name)`. The first failure ends
    the whole call; links already made stay. */
module Symlinks {
  import opened Paths
  import opened FileSystem
  import opened CopyUpCommon

  /** The target the link for entry `e` of `src` gets, judged on the nodes `ns`. */
  function LinkTarget(ns: Nodes, src: Path, e: DirEntry): Path
    requires EntryOf(ns, src, e)
  {
    if e.kind == KSymlink then ns[Join(src, e.name)].target else Join(Base(src), e.name)
  }

  /** The calls made for one entry, in order: read the link (symlinks only),
      remove what is at the destination, make the link. */
  function LinkOps(ns: Nodes, src: Path, dst: Path, e: DirEntry): seq<Op>
    requires EntryOf(ns, src, e)
  {
    (if e.kind == KSymlink then [ReadlinkOp(Join(src, e.name))] else [])
      + [RemoveAllOp(Join(dst, e.name)), SymlinkOp(LinkTarget(ns, src, e), Join(dst, e.name))]
  }

  /** The calls made for a list of entries. */
  function LinkLog(ns: Nodes, src: Path, dst: Path, es: seq<DirEntry>): seq<Op>
    requires Consistent(ns, src, es)
    decreases |es|
  {
    if es == [] then [] else LinkOps(ns, src, dst, es[0]) + LinkLog(ns, src, dst, es[1..])
  }

  /** The loop body for one entry (tmpfssymlink.go and child_driver.go alike). */
  function LinkOne(env: Env, w: World, src: Path, dst: Path, e: DirEntry): Step
  {
    var full := Join(src, e.name);
    var link := Join(dst, e.name);
    var t := if e.kind == KSymlink then Readlink(env, w, full) else Call(w, Ok(Join(Base(src), e.name)));
    if t.res.Err? then Step(t.world, Failed(ReadlinkFailed(full, t.res.fault)))
    else
      var rm := RemoveAll(env, t.world, link);
      if rm.res.Err? then Step(rm.world, Failed(RemoveFailed(link, rm.res.fault)))
      else
        var sl := MakeSymlink(env, rm.world, t.res.value, dst, e.name);
        if sl.res.Err? then Step(sl.world, Failed(SymlinkFailed(t.res.value, link, sl.res.fault)))
        else Step(sl.world, Done)
  }

  /** The loop over the entries, in the order given; stops at the first failure. */
  function LinkEntries(env: Env, w: World, src: Path, dst: Path, es: seq<DirEntry>): Step
    decreases |es|
  {
    if es == [] then Step(w, Done)
    else
      var s := LinkOne(env, w, src, dst, es[0]);
      if s.outcome.Failed? then s else LinkEntries(env, s.world, src, dst, es[1..])
  }

  /** `p` is none of the links for `es` and lies inside none of them. */
  predicate Untouched(p: Path, dst: Path, es: seq<DirEntry>)
  {
    forall i :: 0 <= i < |es| ==> !Touches(p, Join(dst, es[i].name))
  }

  /** Making the links never disturbs the entries they are read from. */
  predicate Separated(src: Path, dst: Path, es: seq<DirEntry>)
  {
    forall i :: 0 <= i < |es| ==> Untouched(Join(src, es[i].name), dst, es)
  }

  /** One entry changes nothing outside its destination. */
  lemma LinkOneFrame(env: Env, w: World, src: Path, dst: Path, e: DirEntry)
    ensures var s := LinkOne(env, w, src, dst, e);
      && s.world.mounts == w.mounts
      && w.log < s.world.log
      && forall p :: !Touches(p, Join(dst, e.name)) ==> SameAt(w.nodes, s.world.nodes, p)
  {
    PruneSpec(w.nodes, Join(dst, e.name));
  }

  /** One entry: the calls are made in `LinkOps` order, and on success the
      destination is a symlink to the rule's target with nothing left inside it.
      On failure the calls made are a non-empty prefix of `LinkOps`. */
  lemma LinkOneSpec(env: Env, w: World, src: Path, dst: Path, e: DirEntry)
    requires EntryOf(w.nodes, src, e)
    requires IsDir(w.nodes, dst)
    ensures var s := LinkOne(env, w, src, dst, e);
      && w.log < s.world.log <= w.log + LinkOps(w.nodes, src, dst, e)
      && (s.outcome.Done? ==>
            && s.world.log == w.log + LinkOps(w.nodes, src, dst, e)
            && Join(dst, e.name) in s.world.nodes
            && s.world.nodes[Join(dst, e.name)] == Symlink(LinkTarget(w.nodes, src, e))
            && (forall p :: Below(p, Join(dst, e.name)) ==> p !in s.world.nodes))
  {
    LinkOneLog(env, w, src, dst, e);
    LinkOneLink(env, w, src, dst, e);
  }

  /** The calls one entry makes, in order. */
  lemma LinkOneLog(env: Env, w: World, src: Path, dst: Path, e: DirEntry)
    requires EntryOf(w.nodes, src, e)
    ensures var s := LinkOne(env, w, src, dst, e);
      && w.log < s.world.log <= w.log + LinkOps(w.nodes, src, dst, e)
      && (s.outcome.Done? ==> s.world.log == w.log + LinkOps(w.nodes, src, dst, e))
  {
    var link := Join(dst, e.name);
    var ops := LinkOps(w.nodes, src, dst, e);
    var t := if e.kind == KSymlink then Readlink(env, w, Join(src, e.name)) else Call(w, Ok(Join(Base(src), e.name)));
    var pre := if e.kind == KSymlink then [ReadlinkOp(Join(src, e.name))] else [];
    assert t.world.log == w.log + pre;
    if t.res.Ok? {
      assert t.res.value == LinkTarget(w.nodes, src, e);
      var rm := RemoveAll(env, t.world, link);
      assert rm.world.log == w.log + ops[..|pre| + 1];
      if rm.res.Ok? {
        var sl := MakeSymlink(env, rm.world, t.res.value, dst, e.name);
        assert sl.world.log == w.log + ops;
      }
    }
  }

  /** On success one entry leaves a symlink to the rule's target with nothing inside it. */
  lemma LinkOneLink(env: Env, w: World, src: Path, dst: Path, e: DirEntry)
    requires EntryOf(w.nodes, src, e)
    requires IsDir(w.nodes, dst)
    ensures var s := LinkOne(env, w, src, dst, e);
      s.outcome.Done? ==>
        && Join(dst, e.name) in s.world.nodes
        && s.world.nodes[Join(dst, e.name)] == Symlink(LinkTarget(w.nodes, src, e))
        && (forall p :: Below(p, Join(dst, e.name)) ==> p !in s.world.nodes)
  {
    var link := Join(dst, e.name);
    var t := if e.kind == KSymlink then Readlink(env, w, Join(src, e.name)) else Call(w, Ok(Join(Base(src), e.name)));
    assert t.world.nodes == w.nodes && t.world.mounts == w.mounts;
    if t.res.Ok? {
      assert t.res.value == LinkTarget(w.nodes, src, e);
      var rm := RemoveAll(env, t.world, link);
      PruneSpec(w.nodes, link);
      if rm.res.Ok? {
        TouchesPrefix(dst, link);
        assert IsDir(rm.world.nodes, dst);
      }
    }
  }

  /** The loop changes nothing outside the links, and no mount. */
  lemma {:induction false} LinkEntriesFrame(env: Env, w: World, src: Path, dst: Path, es: seq<DirEntry>)
    ensures var s := LinkEntries(env, w, src, dst, es);
      && s.world.mounts == w.mounts
      && w.log <= s.world.log
      && forall p :: Untouched(p, dst, es) ==> SameAt(w.nodes, s.world.nodes, p)
    decreases |es|
  {
    if es != [] {
      LinkOneFrame(env, w, src, dst, es[0]);
      var s1 := LinkOne(env, w, src, dst, es[0]);
      if s1.outcome.Done? {
        LinkEntriesFrame(env, s1.world, src, dst, es[1..]);
        forall p | Untouched(p, dst, es)
          ensures Untouched(p, dst, es[1..]) && !Touches(p, Join(dst, es[0].name))
        {
          forall i | 0 <= i < |es[1..]| ensures !Touches(p, Join(dst, es[1..][i].name)) {
            assert es[1..][i] == es[i + 1];
          }
        }
      }
    }
  }

  /** Dropping the first entry keeps the loop's preconditions. */
  lemma RestSeparated(src: Path, dst: Path, es: seq<DirEntry>)
    requires es != [] && Separated(src, dst, es)
    ensures Separated(src, dst, es[1..])
    ensures forall i :: 1 <= i < |es| ==> !Touches(Join(src, es[i].name), Join(dst, es[0].name))
  {
    var rest := es[1..];
    forall i, j | 0 <= i < |rest| && 0 <= j < |rest|
      ensures !Touches(Join(src, rest[i].name), Join(dst, rest[j].name))
    {
      assert rest[i] == es[i + 1] && rest[j] == es[j + 1];
      assert Untouched(Join(src, es[i + 1].name), dst, es);
    }
    forall i | 1 <= i < |es|
      ensures !Touches(Join(src, es[i].name), Join(dst, es[0].name))
    {
      assert Untouched(Join(src, es[i].name), dst, es);
    }
  }

  /** After the first entry is linked, the rest still read what they read before. */
  lemma AfterFirst(env: Env, w: World, src: Path, dst: Path, es: seq<DirEntry>)
    requires es != [] && Consistent(w.nodes, src, es) && DistinctNames(es)
    requires IsDir(w.nodes, dst) && Separated(src, dst, es)
    ensures var s1 := LinkOne(env, w, src, dst, es[0]);
      && Consistent(s1.world.nodes, src, es[1..])
      && DistinctNames(es[1..])
      && Separated(src, dst, es[1..])
      && (forall i :: 1 <= i < |es| ==> s1.world.nodes[Join(src, es[i].name)] == w.nodes[Join(src, es[i].name)])
      && LinkLog(s1.world.nodes, src, dst, es[1..]) == LinkLog(w.nodes, src, dst, es[1..])
      && (s1.outcome.Done? ==> IsDir(s1.world.nodes, dst))
      && Untouched(Join(dst, es[0].name), dst, es[1..])
  {
    var s1 := LinkOne(env, w, src, dst, es[0]);
    var rest := es[1..];
    LinkOneFrame(env, w, src, dst, es[0]);
    RestSeparated(src, dst, es);
    forall i | 0 <= i < |rest|
      ensures Join(src, rest[i].name) in s1.world.nodes
      ensures s1.world.nodes[Join(src, rest[i].name)] == w.nodes[Join(src, rest[i].name)]
    {
      assert rest[i] == es[i + 1];
      assert SameAt(w.nodes, s1.world.nodes, Join(src, es[i + 1].name));
    }
    LinkLogFrame(w.nodes, s1.world.nodes, src, dst, rest);
    TouchesPrefix(dst, Join(dst, es[0].name));
    assert SameAt(w.nodes, s1.world.nodes, dst);
    forall i | 0 <= i < |rest|
      ensures !Touches(Join(dst, es[0].name), Join(dst, rest[i].name))
    {
      assert rest[i] == es[i + 1];
      SiblingsApart(dst, es[0].name, rest[i].name);
    }
  }

  /** On success every entry has its link, and the calls were made in `LinkLog`
      order; provided the entries are the ones `src` holds, with distinct names, and
      the links do not overlap them. */
  lemma LinkEntriesDone(env: Env, w: World, src: Path, dst: Path, es: seq<DirEntry>)
    requires Consistent(w.nodes, src, es) && DistinctNames(es)
    requires IsDir(w.nodes, dst) && Separated(src, dst, es)
    ensures var s := LinkEntries(env, w, src, dst, es);
      s.outcome.Done? ==>
        && s.world.log == w.log + LinkLog(w.nodes, src, dst, es)
        && forall i :: 0 <= i < |es| ==>
             Join(dst, es[i].name) in s.world.nodes
             && s.world.nodes[Join(dst, es[i].name)] == Symlink(LinkTarget(w.nodes, src, es[i]))
  {
    LinkEntriesDoneLog(env, w, src, dst, es);
    LinkEntriesDoneLinks(env, w, src, dst, es);
  }

  lemma {:induction false} LinkEntriesDoneLog(env: Env, w: World, src: Path, dst: Path, es: seq<DirEntry>)
    requires Consistent(w.nodes, src, es) && DistinctNames(es)
    requires IsDir(w.nodes, dst) && Separated(src, dst, es)
    ensures var s := LinkEntries(env, w, src, dst, es);
      s.outcome.Done? ==> s.world.log == w.log + LinkLog(w.nodes, src, dst, es)
    decreases |es|
  {
    if es != [] {
      LinkOneSpec(env, w, src, dst, es[0]);
      var s1 := LinkOne(env, w, src, dst, es[0]);
      if s1.outcome.Done? {
        AfterFirst(env, w, src, dst, es);
        LinkEntriesDoneLog(env, s1.world, src, dst, es[1..]);
        var s := LinkEntries(env, s1.world, src, dst, es[1..]);
        if s.outcome.Done? {
          LogAppend(w.log, s1.world.log, s.world.log, LinkOps(w.nodes, src, dst, es[0]), LinkLog(w.nodes, src, dst, es[1..]));
        }
      }
    }
  }

  /** Calls made in two stretches, one after the other. */
  lemma LogAppend(l0: seq<Op>, l1: seq<Op>, l2: seq<Op>, a: seq<Op>, b: seq<Op>)
    requires l1 == l0 + a && l2 == l1 + b
    ensures l2 == l0 + (a + b)
  {
  }

  lemma {:induction false} LinkEntriesDoneLinks(env: Env, w: World, src: Path, dst: Path, es: seq<DirEntry>)
    requires Consistent(w.nodes, src, es) && DistinctNames(es)
    requires IsDir(w.nodes, dst) && Separated(src, dst, es)
    ensures var s := LinkEntries(env, w, src, dst, es);
      s.outcome.Done? ==> forall i :: 0 <= i < |es| ==>
        Join(dst, es[i].name) in s.world.nodes
        && s.world.nodes[Join(dst, es[i].name)] == Symlink(LinkTarget(w.nodes, src, es[i]))
    decreases |es|
  {
    if es != [] {
      var e := es[0];
      LinkOneSpec(env, w, src, dst, e);
      var s1 := LinkOne(env, w, src, dst, e);
      if s1.outcome.Done? {
        var rest := es[1..];
        AfterFirst(env, w, src, dst, es);
        LinkEntriesDoneLinks(env, s1.world, src, dst, rest);
        LinkEntriesFrame(env, s1.world, src, dst, rest);
        var s := LinkEntries(env, s1.world, src, dst, rest);
        if s.outcome.Done? {
          assert SameAt(s1.world.nodes, s.world.nodes, Join(dst, e.name));
          forall i | 1 <= i < |es|
            ensures Join(dst, es[i].name) in s.world.nodes
            ensures s.world.nodes[Join(dst, es[i].name)] == Symlink(LinkTarget(w.nodes, src, es[i]))
          {
            assert es[i] == rest[i - 1];
          }
        }
      }
    }
  }

  /** On failure at entry `k`, the links for the entries before `k` are in place,
      and the calls made are those for the entries before `k` followed by a
      non-empty prefix of those for entry `k`. */
  lemma {:induction false} LinkEntriesFailed(env: Env, w: World, src: Path, dst: Path, es: seq<DirEntry>)
    requires Consistent(w.nodes, src, es) && DistinctNames(es)
    requires IsDir(w.nodes, dst) && Separated(src, dst, es)
    ensures var s := LinkEntries(env, w, src, dst, es);
      s.outcome.Failed? ==> exists k :: 0 <= k < |es| && LinkedUpTo(w, s.world, src, dst, es, k)
    decreases |es|
  {
    if es != [] {
      var e := es[0];
      LinkOneSpec(env, w, src, dst, e);
      var s1 := LinkOne(env, w, src, dst, e);
      if s1.outcome.Failed? {
        LinkLogAppend(w.nodes, src, dst, es, 0);
        assert es[..0] == [] && es[..1] == [e];
        assert LinkedUpTo(w, s1.world, src, dst, es, 0);
      } else {
        var rest := es[1..];
        AfterFirst(env, w, src, dst, es);
        LinkEntriesFailed(env, s1.world, src, dst, rest);
        LinkEntriesFrame(env, s1.world, src, dst, rest);
        var s := LinkEntries(env, s1.world, src, dst, rest);
        if s.outcome.Failed? {
          var k :| 0 <= k < |rest| && LinkedUpTo(s1.world, s.world, src, dst, rest, k);
          LinkedUpToCons(w, s1.world, s.world, src, dst, es, k);
        }
      }
    }
  }

  /** After a failure at entry `k`: the entries before `k` have their links, and the
      log holds their calls followed by a non-empty prefix of entry `k`'s. */
  predicate LinkedUpTo(w: World, w': World, src: Path, dst: Path, es: seq<DirEntry>, k: nat)
    requires Consistent(w.nodes, src, es) && k < |es|
  {
    && w.log + LinkLog(w.nodes, src, dst, es[..k]) < w'.log <= w.log + LinkLog(w.nodes, src, dst, es[..k + 1])
    && forall j :: 0 <= j < k ==>
         Join(dst, es[j].name) in w'.nodes
         && w'.nodes[Join(dst, es[j].name)] == Symlink(LinkTarget(w.nodes, src, es[j]))
  }

  lemma LinkLogFrame(ns: Nodes, ns': Nodes, src: Path, dst: Path, es: seq<DirEntry>)
    requires Consistent(ns, src, es)
    requires forall i :: 0 <= i < |es| ==> Join(src, es[i].name) in ns' && ns'[Join(src, es[i].name)] == ns[Join(src, es[i].name)]
    ensures Consistent(ns', src, es)
    ensures LinkLog(ns', src, dst, es) == LinkLog(ns, src, dst, es)
    decreases |es|
  {
    if es != [] {
      LinkLogFrame(ns, ns', src, dst, es[1..]);
    }
  }

  lemma LinkLogAppend(ns: Nodes, src: Path, dst: Path, es: seq<DirEntry>, k: nat)
    requires Consistent(ns, src, es) && 0 <= k < |es|
    ensures Consistent(ns, src, es[..k]) && Consistent(ns, src, es[..k + 1])
    ensures LinkLog(ns, src, dst, es[..k + 1]) == LinkLog(ns, src, dst, es[..k]) + LinkOps(ns, src, dst, es[k])
    decreases k
  {
    if k > 0 {
      LinkLogAppend(ns, src, dst, es[1..], k - 1);
      assert es[1..][..k - 1] == es[..k][1..] && es[1..][..k] == es[..k + 1][1..];
    } else {
      assert es[..1] == [es[0]];
    }
  }

  /** The log half of `LinkedUpToCons`. */
  lemma LinkLogCons(ns: Nodes, ns1: Nodes, src: Path, dst: Path, es: seq<DirEntry>, k: nat)
    requires Consistent(ns, src, es) && k + 1 < |es|
    requires forall i :: 1 <= i < |es| ==> Join(src, es[i].name) in ns1 && ns1[Join(src, es[i].name)] == ns[Join(src, es[i].name)]
    ensures Consistent(ns, src, es[..k + 1]) && Consistent(ns, src, es[..k + 2])
    ensures Consistent(ns1, src, es[1..][..k]) && Consistent(ns1, src, es[1..][..k + 1])
    ensures LinkLog(ns, src, dst, es[..k + 1]) == LinkOps(ns, src, dst, es[0]) + LinkLog(ns1, src, dst, es[1..][..k])
    ensures LinkLog(ns, src, dst, es[..k + 2]) == LinkOps(ns, src, dst, es[0]) + LinkLog(ns1, src, dst, es[1..][..k + 1])
  {
    var rest := es[1..];
    LinkLogAppend(ns, src, dst, es, k + 1);
    assert rest[..k] == es[..k + 1][1..] && rest[..k + 1] == es[..k + 2][1..];
    var long, short := rest[..k + 1], rest[..k];
    forall i | 0 <= i < |long|
      ensures Join(src, long[i].name) in ns1 && ns1[Join(src, long[i].name)] == ns[Join(src, long[i].name)]
    {
      assert long[i] == es[i + 1];
    }
    LinkLogFrame(ns, ns1, src, dst, long);
    forall i | 0 <= i < |short|
      ensures Join(src, short[i].name) in ns1 && ns1[Join(src, short[i].name)] == ns[Join(src, short[i].name)]
    {
      assert short[i] == es[i + 1];
    }
    LinkLogFrame(ns, ns1, src, dst, short);
  }

  lemma LinkedUpToCons(w: World, w1: World, w': World, src: Path, dst: Path, es: seq<DirEntry>, k: nat)
    requires Consistent(w.nodes, src, es) && k + 1 < |es|
    requires Consistent(w1.nodes, src, es[1..])
    requires forall i :: 1 <= i < |es| ==> w1.nodes[Join(src, es[i].name)] == w.nodes[Join(src, es[i].name)]
    requires w1.log == w.log + LinkOps(w.nodes, src, dst, es[0])
    requires Join(dst, es[0].name) in w1.nodes
    requires w1.nodes[Join(dst, es[0].name)] == Symlink(LinkTarget(w.nodes, src, es[0]))
    requires Untouched(Join(dst, es[0].name), dst, es[1..])
    requires forall p :: Untouched(p, dst, es[1..]) ==> SameAt(w1.nodes, w'.nodes, p)
    requires LinkedUpTo(w1, w', src, dst, es[1..], k)
    ensures LinkedUpTo(w, w', src, dst, es, k + 1)
  {
    var rest := es[1..];
    forall i | 1 <= i < |es|
      ensures Join(src, es[i].name) in w1.nodes
    {
      assert rest[i - 1] == es[i];
    }
    LinkLogCons(w.nodes, w1.nodes, src, dst, es, k);
    assert w.log + LinkLog(w.nodes, src, dst, es[..k + 1]) == w1.log + LinkLog(w1.nodes, src, dst, rest[..k]);
    assert w.log + LinkLog(w.nodes, src, dst, es[..k + 2]) == w1.log + LinkLog(w1.nodes, src, dst, rest[..k + 1]);
    assert SameAt(w1.nodes, w'.nodes, Join(dst, es[0].name));
    forall j | 1 <= j < k + 1
      ensures Join(dst, es[j].name) in w'.nodes
      ensures w'.nodes[Join(dst, es[j].name)] == Symlink(LinkTarget(w.nodes, src, es[j]))
    {
      assert es[j] == rest[j - 1];
    }
  }

  /** The loop creates no path other than its links. */
  lemma {:induction false} LinkEntriesAddsOnlyLinks(env: Env, w: World, src: Path, dst: Path, es: seq<DirEntry>)
    ensures var s := LinkEntries(env, w, src, dst, es);
      forall p :: p in s.world.nodes ==> p in w.nodes || IsEntryPath(p, dst, es)
    decreases |es|
  {
    if es != [] {
      var s1 := LinkOne(env, w, src, dst, es[0]);
      PruneSpec(w.nodes, Join(dst, es[0].name));
      assert forall p :: p in s1.world.nodes ==> p in w.nodes || p == Join(dst, es[0].name);
      if s1.outcome.Done? {
        LinkEntriesAddsOnlyLinks(env, s1.world, src, dst, es[1..]);
        var s := LinkEntries(env, s1.world, src, dst, es[1..]);
        forall p | p in s.world.nodes && p !in w.nodes
          ensures IsEntryPath(p, dst, es)
        {
          if p !in s1.world.nodes {
            var i :| 0 <= i < |es[1..]| && p == Join(dst, es[1..][i].name);
            assert es[1..][i] == es[i + 1];
          } else {
            assert p == Join(dst, es[0].name);
          }
        }
      }
    }
  }

  /** A destination that is a mount point in view makes its `RemoveAll` fail. */
  lemma LinkOneBusy(env: Env, w: World, src: Path, dst: Path, e: DirEntry)
    requires IsMountPoint(w, Join(dst, e.name)) && Join(dst, e.name) in w.nodes
    ensures LinkOne(env, w, src, dst, e).outcome.Failed?
  {
    var t := if e.kind == KSymlink then Readlink(env, w, Join(src, e.name)) else Call(w, Ok(Join(Base(src), e.name)));
    assert t.world.nodes == w.nodes && t.world.mounts == w.mounts;
  }

  /** If any destination is a mount point in view, `RemoveAll` fails there and the
      loop fails, at that entry or before it. */
  lemma {:induction false} LinkEntriesBusy(env: Env, w: World, src: Path, dst: Path, es: seq<DirEntry>, i: nat)
    requires i < |es| && IsMountPoint(w, Join(dst, es[i].name)) && Join(dst, es[i].name) in w.nodes
    requires forall j :: 0 <= j < |es| ==> IsName(es[j].name)
    ensures LinkEntries(env, w, src, dst, es).outcome.Failed?
    decreases i
  {
    var s1 := LinkOne(env, w, src, dst, es[0]);
    if i == 0 || es[0].name == es[i].name {
      LinkOneBusy(env, w, src, dst, es[0]);
    } else if s1.outcome.Done? {
      LinkOneFrame(env, w, src, dst, es[0]);
      SiblingsApart(dst, es[i].name, es[0].name);
      assert SameAt(w.nodes, s1.world.nodes, Join(dst, es[i].name));
      assert es[1..][i - 1] == es[i];
      LinkEntriesBusy(env, s1.world, src, dst, es[1..], i - 1);
    }
  }

  /** A loop that goes through made no link onto a mount point in view. */
  lemma LinkEntriesDoneAvoidsMounts(env: Env, w: World, src: Path, dst: Path, es: seq<DirEntry>)
    requires forall j :: 0 <= j < |es| ==> IsName(es[j].name)
    ensures LinkEntries(env, w, src, dst, es).outcome.Done? ==>
      forall i :: 0 <= i < |es| && Join(dst, es[i].name) in w.nodes ==> !IsMountPoint(w, Join(dst, es[i].name))
  {
    forall i | 0 <= i < |es| && Join(dst, es[i].name) in w.nodes && IsMountPoint(w, Join(dst, es[i].name))
      ensures LinkEntries(env, w, src, dst, es).outcome.Failed?
    {
      LinkEntriesBusy(env, w, src, dst, es, i);
    }
  }

  /** The symlink loop reports only readlink, remove and symlink errors. */
  lemma {:induction false} LinkEntriesNoReadDirError(env: Env, w: World, src: Path, dst: Path, es: seq<DirEntry>)
    ensures var s := LinkEntries(env, w, src, dst, es);
      s.outcome.Failed? ==> s.outcome.error.ReadlinkFailed? || s.outcome.error.RemoveFailed? || s.outcome.error.SymlinkFailed?
    decreases |es|
  {
    if es != [] {
      var s1 := LinkOne(env, w, src, dst, es[0]);
      if s1.outcome.Done? {
        LinkEntriesNoReadDirError(env, s1.world, src, dst, es[1..]);
      }
    }
  }
}
