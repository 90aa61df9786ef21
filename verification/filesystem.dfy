/** The abstract filesystem and mount table the copy-up drivers act on, and the
    operating-system primitives they call, each as a transition that may fail.

    The state is the view a process sees: a map from absolute paths to nodes, plus a
    per-path stack of mounts. A bind mount copies the source's subtree into the
    target's place, a tmpfs mount empties the target, and a mount move carries a
    mounted subtree to a new place and uncovers what the mount had hidden. Every
    primitive appends what it attempted to the log, so the order of the calls is
    part of the state. Whether the kernel refuses a call (permissions, resource
    exhaustion, ...) is decided by the environment `Env`, which also supplies
    `filepath.Clean` and the random part of temporary names. */
module FileSystem {
  import opened Strings
  import opened Paths

  type Bytes = seq<bv8>

  datatype Node = Dir | File(content: Bytes) | Symlink(target: Path) | Other

  /** The type classification a directory listing reports for an entry. */
  datatype Kind = KDir | KRegular | KSymlink | KOther

  function KindOf(n: Node): Kind
  {
    match n
    case Dir => KDir
    case File(_) => KRegular
    case Symlink(_) => KSymlink
    case Other => KOther
  }

  datatype DirEntry = DirEntry(name: string, kind: Kind)

  datatype MountKind = BindOf(source: Path) | Tmpfs

  /** A mount and the subtree it covers at its mount point. */
  datatype Mount = Mount(kind: MountKind, covered: map<string, Node>)

  /** The primitive calls, as recorded in the log. */
  datatype Op =
    | MkdirTempOp(dir: Path, prefix: string)
    | BindOp(src: Path, dst: Path)
    | TmpfsOp(dst: Path)
    | MoveOp(src: Path, dst: Path)
    | ReadDirOp(path: Path)
    | MkdirOp(path: Path)
    | OpenOp(path: Path)
    | CreateOp(path: Path)
    | CopyOp(src: Path, dst: Path)
    | ReadlinkOp(path: Path)
    | RemoveAllOp(path: Path)
    | SymlinkOp(target: Path, link: Path)

  datatype Fault = NotFound | NotDir | Exists | NotMounted | Invalid | Busy | Refused

  datatype Res<T> = Ok(value: T) | Err(fault: Fault)

  type Nodes = map<Path, Node>

  datatype World = World(nodes: Nodes, mounts: map<Path, seq<Mount>>, log: seq<Op>)

  /** The outcome of one primitive call: the world after it, and its result. */
  datatype Call<T> = Call(world: World, res: Res<T>)

  /** What the model does not compute itself: `filepath.Clean`, the random number
      `os.MkdirTemp` puts in a name, whether the kernel refuses the call made at a
      given step, and how many bytes a failing `io.Copy` wrote first. */
  datatype Env = Env(
    clean: Path -> Path,
    suffix: nat -> nat,
    refuses: (Op, nat) -> bool,
    partial: nat -> nat)

  predicate IsDir(ns: Nodes, p: Path)
  {
    p in ns && ns[p].Dir?
  }

  function DirFault(ns: Nodes, p: Path): Fault
  {
    if p in ns then NotDir else NotFound
  }

  function Stack(w: World, p: Path): seq<Mount>
  {
    if p in w.mounts then w.mounts[p] else []
  }

  predicate IsMountPoint(w: World, p: Path)
  {
    Stack(w, p) != []
  }

  function Push(w: World, p: Path, m: Mount): map<Path, seq<Mount>>
  {
    w.mounts[p := Stack(w, p) + [m]]
  }

  /** A push changes the stack at one path only. */
  lemma StackAfterPush(w: World, w': World, p: Path, m: Mount)
    requires w'.mounts == Push(w, p, m)
    ensures Stack(w', p) == Stack(w, p) + [m]
    ensures forall q :: q != p ==> Stack(w', q) == Stack(w, q)
  {
  }

  // ---------------------------------------------------------------------------
  // Subtrees

  /** The names directly inside `d`. */
  function Children(ns: Nodes, d: Path): set<string>
  {
    set p | p in ns && Below(p, d) && IsName(p[|d| + 1..]) :: p[|d| + 1..]
  }

  lemma ChildrenSpec(ns: Nodes, d: Path)
    ensures forall n :: n in Children(ns, d) <==> IsName(n) && Join(d, n) in ns
  {
    forall n | IsName(n) && Join(d, n) in ns
      ensures n in Children(ns, d)
    {
      JoinBelow(d, n);
    }
  }

  /** Everything strictly inside `root`, keyed by its path relative to `root`. */
  function Subtree(ns: Nodes, root: Path): map<string, Node>
  {
    map r | r in (set p | p in ns && Below(p, root) :: p[|root| + 1..]) :: ns[Join(root, r)]
  }

  lemma SubtreeSpec(ns: Nodes, root: Path)
    ensures forall r :: r in Subtree(ns, root) <==> r != [] && Join(root, r) in ns
    ensures forall r :: r in Subtree(ns, root) ==> Subtree(ns, root)[r] == ns[Join(root, r)]
  {
    forall r | r != [] && Join(root, r) in ns
      ensures r in Subtree(ns, root)
    {
      JoinBelow(root, r);
    }
  }

  /** `ns` without anything strictly inside `root`. */
  function Prune(ns: Nodes, root: Path): Nodes
  {
    map p | p in ns && !Below(p, root) :: ns[p]
  }

  lemma JoinSuffixes(root: Path)
    ensures forall r :: Join(root, r)[|root| + 1..] == r
  {
    forall r ensures Join(root, r)[|root| + 1..] == r {
      JoinBelowAny(root, r);
    }
  }

  /** `ns` with the inside of `root` replaced by `sub`. */
  function Graft(ns: Nodes, root: Path, sub: map<string, Node>): Nodes
  {
    JoinSuffixes(root);
    Prune(ns, root) + map r | r in sub && r != [] :: Join(root, r) := sub[r]
  }

  lemma GraftSpec(ns: Nodes, root: Path, sub: map<string, Node>)
    ensures forall p :: !Below(p, root) ==> (p in Graft(ns, root, sub) <==> p in ns)
    ensures forall p :: !Below(p, root) && p in ns ==> Graft(ns, root, sub)[p] == ns[p]
    ensures forall r :: r != [] ==> (Join(root, r) in Graft(ns, root, sub) <==> r in sub)
    ensures forall r :: r != [] && r in sub ==> Graft(ns, root, sub)[Join(root, r)] == sub[r]
  {
    JoinSuffixes(root);
    forall r | r != []
      ensures Below(Join(root, r), root)
    {
      JoinBelow(root, r);
    }
  }

  lemma PruneSpec(ns: Nodes, root: Path)
    ensures forall p :: p in Prune(ns, root) <==> p in ns && !Below(p, root)
    ensures forall p :: p in Prune(ns, root) ==> Prune(ns, root)[p] == ns[p]
  {
  }

  /** `ns'` and `ns` agree at `p`. */
  predicate SameAt(ns: Nodes, ns': Nodes, p: Path)
  {
    (p in ns' <==> p in ns) && (p in ns ==> ns'[p] == ns[p])
  }

  /** `ns` shows inside `to` exactly what `ns0` holds inside `from`. */
  ghost predicate Mirrors(ns0: Nodes, from: Path, ns: Nodes, to: Path)
  {
    forall r :: r != [] ==>
      && (Join(to, r) in ns <==> Join(from, r) in ns0)
      && (Join(from, r) in ns0 ==> ns[Join(to, r)] == ns0[Join(from, r)])
  }

  /** Two views that agree inside `root` have the same subtree there. */
  lemma SubtreeAgree(ns: Nodes, ns': Nodes, root: Path)
    requires forall r :: r != [] ==> SameAt(ns, ns', Join(root, r))
    ensures Subtree(ns, root) == Subtree(ns', root)
  {
    SubtreeSpec(ns, root);
    SubtreeSpec(ns', root);
  }

  // ---------------------------------------------------------------------------
  // Directory listings

  /** What `os.ReadDir(d)` returns: the entries of `d` sorted by name, each with
      the type of the node it names. */
  function Listing(ns: Nodes, d: Path): seq<DirEntry>
  {
    ChildrenSpec(ns, d);
    var names := Sorted(Children(ns, d));
    seq(|names|, i requires 0 <= i < |names| => DirEntry(names[i], KindOf(ns[Join(d, names[i])])))
  }

  /** `e` names a node of `dir`, and reports that node's type. */
  predicate EntryOf(ns: Nodes, dir: Path, e: DirEntry)
  {
    IsName(e.name) && Join(dir, e.name) in ns && e.kind == KindOf(ns[Join(dir, e.name)])
  }

  predicate Consistent(ns: Nodes, dir: Path, es: seq<DirEntry>)
  {
    forall i :: 0 <= i < |es| ==> EntryOf(ns, dir, es[i])
  }

  predicate DistinctNames(es: seq<DirEntry>)
  {
    forall i, j :: 0 <= i < |es| && 0 <= j < |es| && i != j ==> es[i].name != es[j].name
  }

  function Names(es: seq<DirEntry>): seq<string>
  {
    seq(|es|, i requires 0 <= i < |es| => es[i].name)
  }

  /** `p` is `dir/name` for the name of one of `es`. */
  predicate IsEntryPath(p: Path, dir: Path, es: seq<DirEntry>)
  {
    exists i :: 0 <= i < |es| && p == Join(dir, es[i].name)
  }

  lemma ListingSpec(ns: Nodes, d: Path)
    ensures Consistent(ns, d, Listing(ns, d))
    ensures DistinctNames(Listing(ns, d))
    ensures forall n :: n in Names(Listing(ns, d)) <==> IsName(n) && Join(d, n) in ns
    ensures StrictlyIncreasing(Names(Listing(ns, d)))
  {
    ChildrenSpec(ns, d);
    var names := Sorted(Children(ns, d));
    assert Names(Listing(ns, d)) == names;
    IncreasingDistinct(names);
  }

  // ---------------------------------------------------------------------------
  // Primitives

  function Perform(w: World, op: Op): World
  {
    w.(log := w.log + [op])
  }

  predicate Denied(env: Env, w: World, op: Op)
  {
    env.refuses(op, |w.log|)
  }

  /** The name `os.MkdirTemp(dir, prefix)` tries when called at log position `step`. */
  function TempName(env: Env, step: nat, prefix: string): string
  {
    prefix + Digits(env.suffix(step))
  }

  /** `os.MkdirTemp`: a new, empty directory under a name not present before. */
  function MkdirTemp(env: Env, w: World, dir: Path, prefix: string): (c: Call<Path>)
    ensures c.world.log == w.log + [MkdirTempOp(dir, prefix)]
    ensures c.world.mounts == w.mounts
    ensures c.res.Ok? ==> c.res.value !in w.nodes && c.world.nodes == w.nodes[c.res.value := Dir]
    ensures c.res.Ok? ==> c.res.value == Join(dir, TempName(env, |w.log|, prefix))
    ensures c.res.Err? ==> c.world.nodes == w.nodes
  {
    var op := MkdirTempOp(dir, prefix);
    var p := Join(dir, TempName(env, |w.log|, prefix));
    var w' := Perform(w, op);
    if !IsDir(w.nodes, dir) then Call(w', Err(DirFault(w.nodes, dir)))
    else if p in w.nodes then Call(w', Err(Exists))
    else if Denied(env, w, op) then Call(w', Err(Refused))
    else Call(w'.(nodes := w.nodes[p := Dir]), Ok(p))
  }

  /** A recursive bind mount of `src` onto `dst`: `dst` now shows what `src` holds. */
  function Bind(env: Env, w: World, src: Path, dst: Path): (c: Call<()>)
    ensures c.world.log == w.log + [BindOp(src, dst)]
    ensures c.res.Err? ==> c.world.nodes == w.nodes && c.world.mounts == w.mounts
  {
    var op := BindOp(src, dst);
    var w' := Perform(w, op);
    if !IsDir(w.nodes, src) then Call(w', Err(DirFault(w.nodes, src)))
    else if !IsDir(w.nodes, dst) then Call(w', Err(DirFault(w.nodes, dst)))
    else if Denied(env, w, op) then Call(w', Err(Refused))
    else
      var m := Mount(BindOf(src), Subtree(w.nodes, dst));
      Call(w'.(nodes := Graft(w.nodes, dst, Subtree(w.nodes, src)), mounts := Push(w, dst, m)), Ok(()))
  }

  /** A fresh tmpfs over `dst`: `dst` now shows an empty directory. */
  function MountTmpfs(env: Env, w: World, dst: Path): (c: Call<()>)
    ensures c.world.log == w.log + [TmpfsOp(dst)]
    ensures c.res.Err? ==> c.world.nodes == w.nodes && c.world.mounts == w.mounts
  {
    var op := TmpfsOp(dst);
    var w' := Perform(w, op);
    if !IsDir(w.nodes, dst) then Call(w', Err(DirFault(w.nodes, dst)))
    else if Denied(env, w, op) then Call(w', Err(Refused))
    else
      var m := Mount(Tmpfs, Subtree(w.nodes, dst));
      Call(w'.(nodes := Prune(w.nodes, dst), mounts := Push(w, dst, m)), Ok(()))
  }

  /** A mount move: the top mount at `src`, with everything it shows, goes to `dst`,
      and `src` shows again what that mount covered. A `src` not in view (hidden
      under a later mount) is not found. */
  function Move(env: Env, w: World, src: Path, dst: Path): (c: Call<()>)
    ensures c.world.log == w.log + [MoveOp(src, dst)]
    ensures c.res.Err? ==> c.world.nodes == w.nodes && c.world.mounts == w.mounts
  {
    var op := MoveOp(src, dst);
    var w' := Perform(w, op);
    if src !in w.nodes then Call(w', Err(NotFound))
    else if !IsMountPoint(w, src) then Call(w', Err(NotMounted))
    else if !IsDir(w.nodes, dst) then Call(w', Err(DirFault(w.nodes, dst)))
    else if Denied(env, w, op) then Call(w', Err(Refused))
    else
      var stack := Stack(w, src);
      var top := stack[|stack| - 1];
      var uncovered := Graft(w.nodes, src, top.covered);
      var w1 := w'.(nodes := uncovered, mounts := w.mounts[src := stack[..|stack| - 1]]);
      var m := Mount(top.kind, Subtree(uncovered, dst));
      Call(w1.(nodes := MovedNodes(w.nodes, src, dst, top.covered), mounts := Push(w1, dst, m)), Ok(()))
  }

  /** `os.ReadDir`. */
  function ReadDir(env: Env, w: World, d: Path): (c: Call<seq<DirEntry>>)
    ensures c.world == Perform(w, ReadDirOp(d))
    ensures c.res.Ok? ==> c.res.value == Listing(w.nodes, d)
  {
    var op := ReadDirOp(d);
    var w' := Perform(w, op);
    if !IsDir(w.nodes, d) then Call(w', Err(DirFault(w.nodes, d)))
    else if Denied(env, w, op) then Call(w', Err(Refused))
    else Call(w', Ok(Listing(w.nodes, d)))
  }

  /** `os.Mkdir(Join(dir, name))`. */
  function Mkdir(env: Env, w: World, dir: Path, name: string): (c: Call<()>)
    ensures c.world.log == w.log + [MkdirOp(Join(dir, name))]
    ensures c.world.mounts == w.mounts
    ensures c.res.Ok? ==> Join(dir, name) !in w.nodes && c.world.nodes == w.nodes[Join(dir, name) := Dir]
    ensures c.res.Err? ==> c.world.nodes == w.nodes
  {
    var p := Join(dir, name);
    var op := MkdirOp(p);
    var w' := Perform(w, op);
    if !IsDir(w.nodes, dir) then Call(w', Err(DirFault(w.nodes, dir)))
    else if p in w.nodes then Call(w', Err(Exists))
    else if Denied(env, w, op) then Call(w', Err(Refused))
    else Call(w'.(nodes := w.nodes[p := Dir]), Ok(()))
  }

  /** `os.Open` of a regular file, standing for the descriptor by the bytes it will read. */
  function Open(env: Env, w: World, p: Path): (c: Call<Bytes>)
    ensures c.world == Perform(w, OpenOp(p))
    ensures c.res.Ok? ==> p in w.nodes && w.nodes[p] == File(c.res.value)
  {
    var op := OpenOp(p);
    var w' := Perform(w, op);
    if p !in w.nodes then Call(w', Err(NotFound))
    else if !w.nodes[p].File? then Call(w', Err(Invalid))
    else if Denied(env, w, op) then Call(w', Err(Refused))
    else Call(w', Ok(w.nodes[p].content))
  }

  /** `os.Create(Join(dir, name))`: an empty regular file, truncating one already there. */
  function Create(env: Env, w: World, dir: Path, name: string): (c: Call<()>)
    ensures c.world.log == w.log + [CreateOp(Join(dir, name))]
    ensures c.world.mounts == w.mounts
    ensures c.res.Ok? ==> c.world.nodes == w.nodes[Join(dir, name) := File([])]
    ensures c.res.Err? ==> c.world.nodes == w.nodes
  {
    var p := Join(dir, name);
    var op := CreateOp(p);
    var w' := Perform(w, op);
    if !IsDir(w.nodes, dir) then Call(w', Err(DirFault(w.nodes, dir)))
    else if p in w.nodes && w.nodes[p].Dir? then Call(w', Err(Invalid))
    else if Denied(env, w, op) then Call(w', Err(Refused))
    else Call(w'.(nodes := w.nodes[p := File([])]), Ok(()))
  }

  /** `io.Copy` from a descriptor opened on `src` (or from a failed open, `Err`) into
      the file just created at `dst`. A failure leaves what was written so far. */
  function Copy(env: Env, w: World, input: Res<Bytes>, src: Path, dst: Path): (c: Call<()>)
    ensures c.world.log == w.log + [CopyOp(src, dst)]
    ensures c.world.mounts == w.mounts
    ensures forall p :: p != dst ==> (p in c.world.nodes <==> p in w.nodes)
    ensures forall p :: p != dst && p in w.nodes ==> c.world.nodes[p] == w.nodes[p]
    ensures input.Err? ==> c.res.Err? && c.world.nodes == w.nodes
    ensures input.Ok? ==> exists k :: 0 <= k <= |input.value| && c.world.nodes == w.nodes[dst := File(input.value[..k])]
    ensures input.Ok? && c.res.Ok? ==> c.world.nodes == w.nodes[dst := File(input.value)]
  {
    var op := CopyOp(src, dst);
    var w' := Perform(w, op);
    match input
    case Err(_) => Call(w', Err(Invalid))
    case Ok(bytes) =>
      if Denied(env, w, op) then
        var k := if env.partial(|w.log|) < |bytes| then env.partial(|w.log|) else |bytes|;
        Call(w'.(nodes := w.nodes[dst := File(bytes[..k])]), Err(Refused))
      else
        assert bytes[..|bytes|] == bytes;
        Call(w'.(nodes := w.nodes[dst := File(bytes)]), Ok(()))
  }

  /** `os.Readlink`. */
  function Readlink(env: Env, w: World, p: Path): (c: Call<Path>)
    ensures c.world == Perform(w, ReadlinkOp(p))
    ensures c.res.Ok? ==> p in w.nodes && w.nodes[p] == Symlink(c.res.value)
  {
    var op := ReadlinkOp(p);
    var w' := Perform(w, op);
    if p !in w.nodes then Call(w', Err(NotFound))
    else if !w.nodes[p].Symlink? then Call(w', Err(Invalid))
    else if Denied(env, w, op) then Call(w', Err(Refused))
    else Call(w', Ok(w.nodes[p].target))
  }

  /** `os.RemoveAll`: `p` and everything inside it are gone; a missing `p` is no
      error. A mount point in view loses its contents but stays, and the call
      fails; one hidden under a later mount is not in view, so for it `p` is
      simply missing. */
  function RemoveAll(env: Env, w: World, p: Path): (c: Call<()>)
    ensures c.world.log == w.log + [RemoveAllOp(p)]
    ensures c.world.mounts == w.mounts
    ensures c.res.Ok? ==> c.world.nodes == Prune(w.nodes, p) - {p}
  {
    var op := RemoveAllOp(p);
    var w' := Perform(w, op);
    if Denied(env, w, op) then Call(w', Err(Refused))
    else if IsMountPoint(w, p) && p in w.nodes then Call(w'.(nodes := Prune(w.nodes, p)), Err(Busy))
    else Call(w'.(nodes := Prune(w.nodes, p) - {p}), Ok(()))
  }

  /** `os.Symlink(target, Join(dir, name))`. */
  function MakeSymlink(env: Env, w: World, target: Path, dir: Path, name: string): (c: Call<()>)
    ensures c.world.log == w.log + [SymlinkOp(target, Join(dir, name))]
    ensures c.world.mounts == w.mounts
    ensures c.res.Ok? ==> Join(dir, name) !in w.nodes && c.world.nodes == w.nodes[Join(dir, name) := Symlink(target)]
    ensures c.res.Err? ==> c.world.nodes == w.nodes
  {
    var p := Join(dir, name);
    var op := SymlinkOp(target, p);
    var w' := Perform(w, op);
    if !IsDir(w.nodes, dir) then Call(w', Err(DirFault(w.nodes, dir)))
    else if p in w.nodes then Call(w', Err(Exists))
    else if Denied(env, w, op) then Call(w', Err(Refused))
    else Call(w'.(nodes := w.nodes[p := Symlink(target)]), Ok(()))
  }

  // ---------------------------------------------------------------------------
  // What a successful mount call does to the view, point by point

  /** After a bind mount of `src` onto `dst`, `dst` shows `src`'s subtree and nothing
      outside `dst` changed; the mount remembers what it covers. */
  lemma BindOk(env: Env, w: World, src: Path, dst: Path)
    ensures var c := Bind(env, w, src, dst);
      c.res.Ok? ==>
        && IsDir(w.nodes, src) && IsDir(w.nodes, dst)
        && c.world.mounts == Push(w, dst, Mount(BindOf(src), Subtree(w.nodes, dst)))
        && (forall p :: !Below(p, dst) ==> SameAt(w.nodes, c.world.nodes, p))
        && Mirrors(w.nodes, src, c.world.nodes, dst)
  {
    GraftSpec(w.nodes, dst, Subtree(w.nodes, src));
    SubtreeSpec(w.nodes, src);
  }

  /** After a tmpfs mount on `dst`, nothing is inside `dst` and nothing outside it changed. */
  lemma TmpfsOk(env: Env, w: World, dst: Path)
    ensures var c := MountTmpfs(env, w, dst);
      c.res.Ok? ==>
        && IsDir(w.nodes, dst)
        && c.world.mounts == Push(w, dst, Mount(Tmpfs, Subtree(w.nodes, dst)))
        && (forall p :: !Below(p, dst) ==> SameAt(w.nodes, c.world.nodes, p))
        && (forall p :: Below(p, dst) ==> p !in c.world.nodes)
  {
    PruneSpec(w.nodes, dst);
  }

  /** In the model, a tmpfs over the root directory hides every absolute path but
      `/` itself, the staging directory under `/tmp` among them. The kernel does
      not move the caller's root onto the new mount, so there it hides nothing
      from the caller's absolute lookups. */
  lemma TmpfsOverRoot(env: Env, w: World, p: Path)
    requires |p| > 1 && p[0] == Sep
    ensures var c := MountTmpfs(env, w, AsDir(Root));
      c.res.Ok? ==> p !in c.world.nodes
  {
    TmpfsOk(env, w, AsDir(Root));
    BelowRoot(p);
  }

  /** A mount point inside `dst` is hidden by a tmpfs over `dst`: removing it
      afterwards is not refused as busy, whatever its own mount stack holds. */
  lemma HiddenNotBusy(env: Env, w: World, dst: Path, p: Path)
    requires Below(p, dst)
    ensures var c := MountTmpfs(env, w, dst);
      c.res.Ok? ==> RemoveAll(env, c.world, p).res != Err(Busy)
  {
    TmpfsOk(env, w, dst);
  }

  /** A mount point inside `dst` is hidden by a tmpfs over `dst`: a mount move
      from its path afterwards finds nothing there, whatever its mount stack holds. */
  lemma HiddenNotMoved(env: Env, w: World, dst: Path, src: Path, to: Path)
    requires Below(src, dst)
    ensures var c := MountTmpfs(env, w, dst);
      c.res.Ok? ==> Move(env, c.world, src, to).res == Err(NotFound)
  {
    TmpfsOk(env, w, dst);
  }

  /** The nodes a mount move from `src` to `dst` leaves: `src` uncovered, then `dst`
      showing what `src` showed. */
  function MovedNodes(ns: Nodes, src: Path, dst: Path, covered: map<string, Node>): Nodes
  {
    Graft(Graft(ns, src, covered), dst, Subtree(ns, src))
  }

  lemma MovedNodesSpec(ns: Nodes, src: Path, dst: Path, covered: map<string, Node>)
    requires Apart(src, dst)
    ensures var ns' := MovedNodes(ns, src, dst, covered);
      && (forall p :: !Below(p, src) && !Below(p, dst) ==> SameAt(ns, ns', p))
      && (forall r :: r != [] ==> (Join(src, r) in ns' <==> r in covered))
      && (forall r :: r != [] && r in covered ==> ns'[Join(src, r)] == covered[r])
      && Mirrors(ns, src, ns', dst)
  {
    var uncovered := Graft(ns, src, covered);
    GraftSpec(ns, src, covered);
    GraftSpec(uncovered, dst, Subtree(ns, src));
    SubtreeSpec(ns, src);
    forall r | r != [] ensures !Below(Join(src, r), dst) {
      JoinBelow(src, r);
      ApartDisjoint(src, dst, Join(src, r));
    }
  }

  /** Uncovering `src` does not change what lies inside a separate `dst`. */
  lemma UncoverKeepsSubtree(ns: Nodes, src: Path, dst: Path, covered: map<string, Node>)
    requires Apart(src, dst)
    ensures Subtree(Graft(ns, src, covered), dst) == Subtree(ns, dst)
  {
    var uncovered := Graft(ns, src, covered);
    GraftSpec(ns, src, covered);
    forall r | r != [] ensures SameAt(ns, uncovered, Join(dst, r)) {
      JoinBelow(dst, r);
      ApartDisjoint(src, dst, Join(dst, r));
    }
    SubtreeAgree(ns, uncovered, dst);
  }

  /** A mount move from `src` to a separate `dst` pops `src`'s top mount and pushes
      it on `dst`, remembering what `dst` showed before. */
  lemma MoveOkMounts(env: Env, w: World, src: Path, dst: Path)
    requires Apart(src, dst)
    ensures var c := Move(env, w, src, dst);
      var stack := Stack(w, src);
      c.res.Ok? ==>
        && stack != []
        && c.world.mounts == w.mounts[src := stack[..|stack| - 1]]
                                     [dst := Stack(w, dst) + [Mount(stack[|stack| - 1].kind, Subtree(w.nodes, dst))]]
  {
    var stack := Stack(w, src);
    if src in w.nodes && stack != [] && IsDir(w.nodes, dst) && !Denied(env, w, MoveOp(src, dst)) {
      var top := stack[|stack| - 1];
      UncoverKeepsSubtree(w.nodes, src, dst, top.covered);
      var w1 := Perform(w, MoveOp(src, dst)).(nodes := Graft(w.nodes, src, top.covered), mounts := w.mounts[src := stack[..|stack| - 1]]);
      assert Stack(w1, dst) == Stack(w, dst);
      assert Move(env, w, src, dst).world.mounts == Push(w1, dst, Mount(top.kind, Subtree(w1.nodes, dst)));
    }
  }

  /** After a mount move, `src` shows again what its top mount covered and `dst`
      shows what `src` showed (see `MovedNodesSpec`). */
  lemma MoveOkNodes(env: Env, w: World, src: Path, dst: Path)
    ensures var c := Move(env, w, src, dst);
      var stack := Stack(w, src);
      c.res.Ok? ==>
        && stack != []
        && c.world.nodes == MovedNodes(w.nodes, src, dst, stack[|stack| - 1].covered)
  {
    if src in w.nodes && IsMountPoint(w, src) && IsDir(w.nodes, dst) && !Denied(env, w, MoveOp(src, dst)) {
      var stack := Stack(w, src);
      assert Move(env, w, src, dst).world.nodes == MovedNodes(w.nodes, src, dst, stack[|stack| - 1].covered);
    }
  }
}
