# rootlesskit copy-up drivers, modelled in Dafny

rootlesskit runs a container as an unprivileged user. It can "copy up" directories
such as `/etc` or `/run` so that the container may change them without touching the
host's copy. In the child namespace, each directory `d` is first bind-mounted onto a
staging directory under `/tmp` and then covered by an empty tmpfs. Its old contents
are put back underneath as symlinks into a shadow directory `d/.roNNN`. Two drivers
do this:

- **tmpfssymlink** (the move driver) moves the staging mount onto the shadow
  directory. It then links every entry that is not on a per-call exclusion list.
- **bindmount_exclusive** (the exclusive driver) rebuilds the entries by hand in
  the shadow directory, skipping the paths on an ignore list it was constructed
  with, and links what it rebuilt. A subdirectory entry gets an empty directory
  and a bind mount, a regular file gets a byte copy, and anything else is dropped.

The model is made of value-semantics functions over an abstract world (module
`FileSystem`):

- a map from absolute paths to nodes (directory, regular file with its bytes,
  symlink, other), which is the view a process sees;
- a per-path stack of mounts, each remembering the subtree it covers;
- a log of the primitive calls made, in order.

Each OS call (`os.MkdirTemp`, `mount(2)` bind / tmpfs / move, `os.ReadDir`,
`os.Mkdir`, `os.Open`, `os.Create`, `io.Copy`, `os.Readlink`, `os.RemoveAll`,
`os.Symlink`) is a function from a world to a world and a result.

It fails for the structural reasons the kernel gives: missing path, not a
directory, already exists, not a mount point, busy mount point. It also fails when
the environment `Env` refuses the call made at that log position. `Env` also
supplies `filepath.Clean`, the random part of `os.MkdirTemp` names, and how many
bytes a failing `io.Copy` wrote.

The modules follow the source:

- `Strings` and `Paths`: name order (code-point order, which is byte order for
  UTF-8 names), `filepath.Join` for one entry, and `filepath.Base`.
- `FileSystem`: the world and the primitives.
- `CopyUpCommon`: errors, the loop over the target directories, which is the same
  in both drivers, and the name lists.
- `Symlinks`: the link loop, which is the same in both drivers.
- `TmpfsSymlink`: the move driver.
- `BindmountExclusive`: the exclusive driver.

The exclusive driver is modelled as written, including three quirks:

- The bind mount for a subdirectory goes from the new (empty) copy onto the
  staging entry, the reverse of its error message. Every copied subdirectory is
  therefore empty (`CopiesEmpty`).
- After `os.Open` the code checks an earlier error variable, which is always nil
  there. A failed open is not noticed, and the copy then receives no bytes.
- `io.Copy` errors are dropped, so a copy may hold only a prefix of the file.

The loop over the target directories hands each cleaned directory to the driver's
per-directory pass with the root `/` written as the empty path (`Paths.AsDir`).
Joining an entry name onto it then gives `/name`, as `filepath.Join("/", name)`
does. The model treats a mount on `/` like a mount on any other directory: in the
model a tmpfs over it hides every other absolute path (`TmpfsOverRoot`), so in the
model neither driver's pass over `/` goes through. The move driver's mount move
finds nothing to move (`RootMoveFails`), and the exclusive driver's listing of the
staging directory fails (`RootListingFails`). The kernel differs here: a mount on
the caller's own root does not change where its absolute lookups start, so the
program's pass over `/` goes on; the section on what is left out says how.

The exclusive driver has no `CopyUpWithExclusion`. Its ignore list is fixed when
the driver is constructed, and it is matched by exact string equality, as is the
move driver's exclusion list. Symlinks and special files in a directory copied by
the exclusive driver disappear (`EntryFate`).

## Model

| member | source | states |
|---|---|---|
| `BindmountExclusive.IsIgnoredTarget` | pkg/copyup/bindmount_exclusive/child_driver.go:21-29 | a path is ignored exactly when it is, character for character, on the driver's ignore list (no cleaning, no prefix or subtree match) |
| `BindmountExclusive.NewChildDriver` | pkg/copyup/bindmount_exclusive/child_driver.go:13-19 | the constructed driver ignores exactly the paths it was given, and nothing later changes that |
| `BindmountExclusive.RebuildOne` | pkg/copyup/bindmount_exclusive/child_driver.go:64-91 | an ignored entry, or one that is neither a directory nor a regular file, is skipped with no call and no change; only a non-ignored subdirectory entry can stop the loop, with a mkdir or mount error; the log only grows |
| `BindmountExclusive.Rebuild` | pkg/copyup/bindmount_exclusive/child_driver.go:64-92 | the entry loop stops only on a mkdir or mount error, and then some listed entry is a non-ignored subdirectory; calls are only appended to the log |
| `BindmountExclusive.RebuildOneDir` | pkg/copyup/bindmount_exclusive/child_driver.go:69-76 | a subdirectory entry makes the copy directory, then bind-mounts the copy onto the staging entry. A mkdir failure reports the copy path after one call; a mount failure reports staging entry and copy after two. On success the copy is a new empty directory, the staging entry shows the copy's (empty) contents, a bind mount of the copy is pushed on the staging entry, and nothing else changes |
| `BindmountExclusive.RebuildOneRegular` | pkg/copyup/bindmount_exclusive/child_driver.go:77-91 | a regular-file entry never stops the loop and never changes the mounts. Either the create fails and no node changes, or the copy becomes a regular file holding a prefix of the original's bytes, and no bytes at all if the open failed |
| `BindmountExclusive.RebuildOneFrame` | pkg/copyup/bindmount_exclusive/child_driver.go:64-91 | one entry changes nothing outside its staging entry and its copy target |
| `BindmountExclusive.RebuildOneBuilt` | pkg/copyup/bindmount_exclusive/child_driver.go:64-91 | whatever appears at the copy target is a faithful copy of the entry: a directory for a directory, a prefix of the bytes for a regular file. A non-ignored subdirectory entry that goes through always leaves its copy |
| `BindmountExclusive.RebuildFrame` | pkg/copyup/bindmount_exclusive/child_driver.go:64-92 | the entry loop changes nothing outside the listed entries' staging subtrees and copy targets |
| `BindmountExclusive.RebuildDone` | pkg/copyup/bindmount_exclusive/child_driver.go:64-92 | after a completed entry loop every copy present is faithful to its entry, and every non-ignored subdirectory entry has its copy |
| `BindmountExclusive.MakeShadowSteps` | pkg/copyup/bindmount_exclusive/child_driver.go:47-58 | bind, tmpfs and shadow creation run in this order. On success the shadow is `d/` plus the name `os.MkdirTemp` picked at the third call. A failure reports the failing call, and exactly the calls up to it were made |
| `BindmountExclusive.MakeShadowView` | pkg/copyup/bindmount_exclusive/child_driver.go:47-58 | after steps 1-3 the staging directory shows what `d` held, `d` holds only the empty shadow directory, and nothing else changed |
| `BindmountExclusive.RebuildView` | pkg/copyup/bindmount_exclusive/child_driver.go:60-92 | after the rebuild, `d` holds only the shadow directory and copies directly inside it. Each copy stands for a non-ignored original directory or regular file, and every non-ignored original directory has one. Nothing outside `d` and the staging directory changed |
| `BindmountExclusive.LinkPhase` | pkg/copyup/bindmount_exclusive/child_driver.go:94-116 | when the link loop goes through, `d/n` exists for a name other than the shadow's exactly when the copy `.roNNN/n` does, and it is a symlink to `.roNNN/n`; the copies are untouched and `d` holds nothing else |
| `BindmountExclusive.CopyUpDirDone` | pkg/copyup/bindmount_exclusive/child_driver.go:40-118 | when the pass over `d` goes through, `d` is copied up: the shadow directory holds faithful copies of the non-ignored directories and regular files, each reached by a symlink, `d` holds nothing else, and nothing outside `d` and the staging directory changed |
| `BindmountExclusive.EntryFate` | pkg/copyup/bindmount_exclusive/child_driver.go:64-116 | after copy-up, an original entry of `d` is still present (as a link) only if it was a non-ignored directory or regular file. Every non-ignored directory is always present, as a link to its copy |
| `BindmountExclusive.CopiesEmpty` | pkg/copyup/bindmount_exclusive/child_driver.go:69-76 | after copy-up nothing lies inside any copy: a subdirectory's contents are not carried over |
| `BindmountExclusive.FillShadowFailed` | pkg/copyup/bindmount_exclusive/child_driver.go:60-116 | steps 4-5 stop with one of four errors. The staging listing is reported under `d`, right after the listing call. The others come later: a subdirectory mkdir or mount, the shadow listing, or one of the link loop's calls |
| `BindmountExclusive.CopyUpDirFailed` | pkg/copyup/bindmount_exclusive/child_driver.go:47-116 | every failure of the pass over `d` is either a failure of steps 1-3 with exactly the calls up to it, or a step 4-5 error after the bind, tmpfs, shadow and listing calls |
| `BindmountExclusive.CopyUp` | pkg/copyup/bindmount_exclusive/child_driver.go:31-120 | the directories reported copied are a prefix of the cleaned inputs, all of them on success, and never `/tmp` |
| `BindmountExclusive.StagingFailure` | pkg/copyup/bindmount_exclusive/child_driver.go:34-37 | the call reports a staging-creation error exactly when `os.MkdirTemp("/tmp", ...)` fails; then nothing is copied and only that one call was made |
| `TmpfsSymlink.IsExcluded` | pkg/copyup/tmpfssymlink/tmpfssymlink.go:28-35 | a path is excluded exactly when it is, character for character, on the exclusion list |
| `TmpfsSymlink.Targets` | pkg/copyup/tmpfssymlink/tmpfssymlink.go:36-42 | an entry is kept exactly when it was listed and its path in the target directory is not excluded; no more entries than listed |
| `TmpfsSymlink.TargetsAppend` | pkg/copyup/tmpfssymlink/tmpfssymlink.go:36-42 | filtering a listing piecewise gives the same as filtering it whole, so the listing order is kept |
| `TmpfsSymlink.TargetsNoExclusion` | pkg/copyup/tmpfssymlink/tmpfssymlink.go:67-69 | with the empty exclusion list `CopyUp` passes, every listed entry is linked |
| `TmpfsSymlink.TargetsEntries` | pkg/copyup/tmpfssymlink/tmpfssymlink.go:36-42 | the kept entries are still entries of the listed directory, with distinct names |
| `TmpfsSymlink.MkSymlinkForTargets` | pkg/copyup/tmpfssymlink/tmpfssymlink.go:22-65 | the listing is the first call and the mounts never change; a listing failure names the source directory and changes only the log |
| `TmpfsSymlink.MoveToShadowDone` | pkg/copyup/tmpfssymlink/tmpfssymlink.go:87-101 | when steps 1-4 go through, the shadow is `d/` plus the name `os.MkdirTemp` picked, after exactly the bind, tmpfs, shadow and move calls |
| `TmpfsSymlink.MoveToShadowFailed` | pkg/copyup/tmpfssymlink/tmpfssymlink.go:87-101 | a failure of steps 1-4 names the failing call and its arguments, and exactly the calls up to it were made |
| `TmpfsSymlink.ShadowAndMove` | pkg/copyup/tmpfssymlink/tmpfssymlink.go:95-101 | the shadow is created under the name picked at that call and then receives the staging mount; each failure reports its own call |
| `TmpfsSymlink.MoveToShadowView` | pkg/copyup/tmpfssymlink/tmpfssymlink.go:87-101 | after steps 1-4 the shadow directory shows what `d` held, `d` holds nothing else, nothing outside `d` changed (the staging directory included), and the mount stacks are as `ShadowMounts` says |
| `TmpfsSymlink.StepsMounts` | pkg/copyup/tmpfssymlink/tmpfssymlink.go:87-101 | after bind, tmpfs and move, `d` carries one more tmpfs mount and the shadow carries the bind of `d`; every other mount stack is as before, the staging directory's included |
| `TmpfsSymlink.LinkedEntries` | pkg/copyup/tmpfssymlink/tmpfssymlink.go:43-63 | after the link loop, `d/n` exists for a name other than the shadow's exactly when it existed before and is not excluded, and it then is a symlink to the old link target (for a symlink) or to `.roNNN/n` |
| `TmpfsSymlink.LinkPhase` | pkg/copyup/tmpfssymlink/tmpfssymlink.go:22-65 | when the link step goes through on the view steps 1-4 left, `d` is copied up as `CopiedUp` says |
| `TmpfsSymlink.CopyUpDirDone` | pkg/copyup/tmpfssymlink/tmpfssymlink.go:80-108 | when the pass over `d` goes through, the shadow directory shows all that `d` held. Each non-excluded original entry is a symlink into it, or keeps its old target if it was a symlink. Excluded entries are hidden, nothing outside `d` changed, and the mount stacks are as `ShadowMounts` says |
| `TmpfsSymlink.CopyUpDirErrors` | pkg/copyup/tmpfssymlink/tmpfssymlink.go:86-106 | the pass over one directory never reports a staging or `/tmp` error |
| `TmpfsSymlink.CopyUpWithExclusion` | pkg/copyup/tmpfssymlink/tmpfssymlink.go:71-110 | the directories reported copied are a prefix of the cleaned inputs, all of them on success, and never `/tmp` |
| `TmpfsSymlink.CopyUp` | pkg/copyup/tmpfssymlink/tmpfssymlink.go:67-69 | the directories reported copied are a prefix of the cleaned inputs, all of them on success |
| `TmpfsSymlink.StagingFailure` | pkg/copyup/tmpfssymlink/tmpfssymlink.go:74-77 | the call reports a staging-creation error exactly when `os.MkdirTemp("/tmp", ...)` fails; then nothing is copied and only that one call was made |
| `Symlinks.LinkOneSpec` | pkg/copyup/tmpfssymlink/tmpfssymlink.go:44-62 | one entry: `Readlink` only for a symlink, then `RemoveAll` and `Symlink`. On success exactly these calls were made, the destination is a symlink to the entry's target or to `Base(src)/name`, and nothing lies under it |
| `Symlinks.LinkOneFrame` | pkg/copyup/bindmount_exclusive/child_driver.go:98-116 | one entry changes no mount and nothing outside its destination path |
| `Symlinks.LinkEntriesFrame` | pkg/copyup/tmpfssymlink/tmpfssymlink.go:43-63 | the link loop changes no mount and nothing outside the destinations of the listed entries |
| `Symlinks.LinkEntriesDone` | pkg/copyup/tmpfssymlink/tmpfssymlink.go:43-63 | a completed link loop made exactly the calls of each entry in order, and each destination is the entry's symlink |
| `Symlinks.LinkEntriesFailed` | pkg/copyup/tmpfssymlink/tmpfssymlink.go:43-63 | when the link loop fails at some entry, the entries before it have their links, and the log holds their calls followed by a non-empty prefix of the failing entry's calls |
| `Symlinks.LinkEntriesAddsOnlyLinks` | pkg/copyup/tmpfssymlink/tmpfssymlink.go:43-63 | the link loop creates no path other than the destinations of the listed entries |
| `Symlinks.LinkEntriesBusy` | pkg/copyup/tmpfssymlink/tmpfssymlink.go:57-59 | if any destination is a mount point in view, `RemoveAll` fails there and the loop fails, at that entry or before it |
| `Symlinks.LinkEntriesDoneAvoidsMounts` | pkg/copyup/tmpfssymlink/tmpfssymlink.go:57-59 | a completed link loop had no mount point in view among its destinations |
| `Symlinks.LinkEntriesNoReadDirError` | pkg/copyup/bindmount_exclusive/child_driver.go:98-116 | the link loop fails only with a readlink, remove or symlink error |
| `CopyUpCommon.ForEachDir` | pkg/copyup/bindmount_exclusive/child_driver.go:39-119 | the loop returns the earlier copied list extended by a prefix of the cleaned inputs, all of them on success, and never adds `/tmp` |
| `CopyUpCommon.ForEachDirAppend` | pkg/copyup/bindmount_exclusive/child_driver.go:40-118 | running the loop over `a + b` is running it over `a` and then, if that succeeded, over `b` from where it stopped |
| `CopyUpCommon.TmpStopsLoop` | pkg/copyup/bindmount_exclusive/child_driver.go:41-45 | a directory that cleans to `/tmp` ends the call with the `/tmp` error; nothing is done to it, and no later directory is looked at |
| `CopyUpCommon.ForEachDirFailedBy` | pkg/copyup/bindmount_exclusive/child_driver.go:40-118 | every error of the loop is the `/tmp` refusal or an error of the per-directory pass, with the world that pass left |
| `CopyUpCommon.ShadowNameIsName` | pkg/copyup/bindmount_exclusive/child_driver.go:55-58 | the name `os.MkdirTemp` picks for the shadow directory is a single entry name |
| `CopyUpCommon.Listed` | pkg/copyup/tmpfssymlink/tmpfssymlink.go:29-34 | the linear scan answers true exactly when the path is on the list |
| `FileSystem.MkdirTemp` | pkg/copyup/bindmount_exclusive/child_driver.go:55-58 | on success a new empty directory exists under a name that was not there, and it is the only change; on failure nothing but the log changes |
| `FileSystem.Mkdir` | pkg/copyup/bindmount_exclusive/child_driver.go:70-72 | on success a new empty directory exists where there was nothing; on failure nothing but the log changes |
| `FileSystem.ReadDir` | pkg/copyup/bindmount_exclusive/child_driver.go:60-63 | the listing changes nothing but the log, and a successful one is the directory's entries in name order |
| `FileSystem.ListingSpec` | pkg/copyup/bindmount_exclusive/child_driver.go:60-63 | a listing names exactly the directory's entries, once each, in strictly increasing name order (`Strings.Less`), each with its node's type |
| `FileSystem.Open` | pkg/copyup/bindmount_exclusive/child_driver.go:78 | opening changes nothing but the log, and a successful open reads the regular file's bytes |
| `FileSystem.Create` | pkg/copyup/bindmount_exclusive/child_driver.go:83-87 | on success the path is an empty regular file (truncating one already there) and nothing else changed; on failure nothing but the log changes |
| `FileSystem.Copy` | pkg/copyup/bindmount_exclusive/child_driver.go:88-90 | only the destination changes: it receives all the input's bytes on success, some prefix on a failure, and nothing when there is no input |
| `FileSystem.Readlink` | pkg/copyup/bindmount_exclusive/child_driver.go:101-105 | reading changes nothing but the log, and a successful read returns the symlink's target |
| `FileSystem.RemoveAll` | pkg/copyup/bindmount_exclusive/child_driver.go:109-112 | on success the path and everything inside it are gone and nothing else changed; the mounts never change |
| `FileSystem.MakeSymlink` | pkg/copyup/bindmount_exclusive/child_driver.go:113-115 | on success a symlink with the given target exists where there was nothing; on failure nothing but the log changes |
| `FileSystem.BindOk` | pkg/copyup/bindmount_exclusive/child_driver.go:47-49 | after a bind mount the target shows the source's subtree, a mount remembering what it covered is pushed, and nothing outside the target changed |
| `FileSystem.TmpfsOk` | pkg/copyup/bindmount_exclusive/child_driver.go:51-53 | after a tmpfs mount nothing is inside the target, a mount remembering what it covered is pushed, and nothing outside changed |
| `FileSystem.MoveOkMounts` | pkg/copyup/tmpfssymlink/tmpfssymlink.go:99-101 | a mount move pops the source's top mount and pushes it on the destination |
| `FileSystem.MovedNodesSpec` | pkg/copyup/tmpfssymlink/tmpfssymlink.go:99-101 | after a mount move the destination shows what the source showed, the source shows what the mount had covered, and nothing else changed |
| `BindmountExclusive.MakeShadow` | pkg/copyup/bindmount_exclusive/child_driver.go:47-58 | steps 1-3 of a pass: bind `d` onto the staging directory, a tmpfs over `d`, then the shadow directory; each failure returns the error naming `d`. What it promises is stated by `MakeShadowSteps` and `MakeShadowView` |
| `BindmountExclusive.RebuildShadow` | pkg/copyup/bindmount_exclusive/child_driver.go:60-92 | step 4: list the staging directory (an error names `d`), then run the entry loop `Rebuild` over the listing; its result is stated by `RebuildView` |
| `BindmountExclusive.LinkShadow` | pkg/copyup/bindmount_exclusive/child_driver.go:94-116 | step 5: list the shadow directory (an error names it) and run the shared link loop from it into `d`; its result is stated by `LinkPhase` |
| `BindmountExclusive.FillShadow` | pkg/copyup/bindmount_exclusive/child_driver.go:60-116 | steps 4 and 5 in order, the second only when the first went through; its errors are stated by `FillShadowFailed` |
| `BindmountExclusive.CopyUpDir` | pkg/copyup/bindmount_exclusive/child_driver.go:47-116 | the pass over one cleaned directory, steps 1-5; its result is stated by `CopyUpDirDone`, `EntryFate` and `CopiesEmpty` on success and by `CopyUpDirFailed` on failure |
| `TmpfsSymlink.MoveToShadow` | pkg/copyup/tmpfssymlink/tmpfssymlink.go:87-101 | steps 1-4 of a pass: bind `d` onto the staging directory, a tmpfs over `d`, the shadow directory, then the mount move onto it; stated by `MoveToShadowDone`, `MoveToShadowFailed` and `MoveToShadowView` |
| `TmpfsSymlink.CopyUpDir` | pkg/copyup/tmpfssymlink/tmpfssymlink.go:87-106 | the pass over one cleaned directory: steps 1-4, then `mkSymlinkForTargets(shadow, d, exclusionList)`, its error returned as is; stated by `CopyUpDirDone` and `CopyUpDirErrors` |
| `Symlinks.LinkOne` | pkg/copyup/tmpfssymlink/tmpfssymlink.go:44-62 | one entry of the link loop: the target is the entry's own link target for a symlink and `Base(src)/name` otherwise, then `RemoveAll` and `Symlink` on `dst/name`, each error returned with its paths; stated by `LinkOneSpec` and `LinkOneFrame` |
| `Symlinks.LinkEntries` | pkg/copyup/tmpfssymlink/tmpfssymlink.go:43-63 | the link loop over the entries in order, stopping at the first error; stated by `LinkEntriesDone`, `LinkEntriesFailed`, `LinkEntriesFrame` and `LinkEntriesAddsOnlyLinks` |
| `FileSystem.Bind` | pkg/copyup/bindmount_exclusive/child_driver.go:47-49 | a recursive bind `mount(src, dst)`: fails when either path is not a directory or the kernel refuses; every call is logged and a failure changes nothing else; the success case is stated by `BindOk` |
| `FileSystem.MountTmpfs` | pkg/copyup/bindmount_exclusive/child_driver.go:51-53 | `mount("none", dst, "tmpfs")`: fails when `dst` is not a directory or the kernel refuses; every call is logged and a failure changes nothing else; the success case is stated by `TmpfsOk` |
| `FileSystem.Move` | pkg/copyup/tmpfssymlink/tmpfssymlink.go:99-101 | `mount(src, dst, MS_MOVE)`: fails with `NotFound` when `src` is not in view (hidden under a later mount), and otherwise when `src` is no mount point, `dst` no directory, or the kernel refuses; every call is logged and a failure changes nothing else; the success case is stated by `MoveOkMounts`, `MoveOkNodes` and `MovedNodesSpec` |
| `FileSystem.TmpfsOverRoot` | pkg/copyup/bindmount_exclusive/child_driver.go:51-53 | in the model, a tmpfs over the root hides every other absolute path, the staging directory under `/tmp` among them; the kernel does not (see what is left out) |
| `FileSystem.HiddenNotBusy` | pkg/copyup/bindmount_exclusive/child_driver.go:110-112 | a mount point inside a directory just covered by a tmpfs is out of view, so `os.RemoveAll` on its path does not fail as busy; the kernel agrees for every directory but the caller's root |
| `FileSystem.HiddenNotMoved` | pkg/copyup/tmpfssymlink/tmpfssymlink.go:99-101 | a mount point inside a directory just covered by a tmpfs is out of view, so a mount move from its path fails with `NotFound`; the kernel agrees for every directory but the caller's root |
| `CopyUpCommon.StagingStaysHidden` | pkg/copyup/bindmount_exclusive/child_driver.go:55-58 | the shadow directory created in the root is never the staging directory, so a staging directory out of view stays out of view |
| `TmpfsSymlink.RootMoveFails` | pkg/copyup/tmpfssymlink/tmpfssymlink.go:87-101 | in the model, a pass of the move driver over `/` always fails: after the tmpfs over `/`, the staging directory under `/tmp` cannot be moved; the program's pass goes on (see what is left out) |
| `BindmountExclusive.RootListingFails` | pkg/copyup/bindmount_exclusive/child_driver.go:47-63 | in the model, a pass of the exclusive driver over `/` always fails: after the tmpfs over `/`, the staging directory under `/tmp` cannot be listed; the program's pass goes on (see what is left out) |
| `CopyUpCommon.CleanAll` | pkg/copyup/bindmount_exclusive/child_driver.go:40-41 | the cleaned inputs, one per input, each the input's `filepath.Clean` in input order |
| `CopyUpCommon.CleanAllAppend` | pkg/copyup/bindmount_exclusive/child_driver.go:40-41 | cleaning a concatenation of inputs is cleaning each part, so the directories a call reports split along its inputs |
| `Paths.Join` | pkg/copyup/bindmount_exclusive/child_driver.go:109 | `filepath.Join(dir, name)` for a clean directory and a single entry name: `dir/name`; `BaseOfJoin`, `JoinInjective` and `SiblingsApart` state what the drivers rely on |
| `Paths.AsDir` | pkg/copyup/tmpfssymlink/tmpfssymlink.go:81 | the cleaned directory in the form `Join` takes, the root as the empty path; `RootJoin` states what that gives |
| `Paths.RootJoin` | pkg/copyup/tmpfssymlink/tmpfssymlink.go:54 | an entry of the root directory is `/name`, as `filepath.Join("/", name)` writes it, and its base name is `name` |
| `Paths.Base` | pkg/copyup/bindmount_exclusive/child_driver.go:107 | `filepath.Base`: the last element with trailing separators ignored, `.` for the empty path and `/` for separators only; `BaseOfJoin` states the case the drivers use |
| `Strings.Less` | pkg/copyup/bindmount_exclusive/child_driver.go:60 | the order `os.ReadDir` sorts names in: lexicographic on characters, a proper prefix first. It is code-point order, which is Go's byte order for UTF-8 names; `Sorted` and `ListingSpec` state the listing order with it |
| `Paths.BaseOfJoin` | pkg/copyup/bindmount_exclusive/child_driver.go:107 | the base name of `d/name` is `name`, so links point to the relative path `.roNNN/n` |
| `Strings.Sorted` | pkg/copyup/bindmount_exclusive/child_driver.go:60 | the result holds exactly the set's names, in strictly increasing name order (`Strings.Less`) |

## Left out

- Left out: the deferred `os.RemoveAll` of the staging directory, which runs as the call returns. The model ends each call before it. When it runs, the staging directory still holds a recursive bind of a target directory: always in the exclusive driver, whose bind is never moved away, and in the move driver after any failure between the bind and the move. The cleanup then removes entries through that bind, and the model does not show this.
- Left out: the diagnostics printed to stderr and stdout.
- Left out: the descriptors `os.Open` and `os.Create` return are never closed. Closing is not modelled.
- Left out: mount flags (`MS_BIND|MS_REC`, `MS_MOVE`) are not modelled. A bind copies the whole subtree the source shows, as a recursive bind does, but the records of mounts below the source stay at their own paths and are not carried to the target.
- Left out: the permission bits (`755` decimal) given to `os.Mkdir` are not modelled; only the fact that a directory exists is.
- Left out: copying is modelled per file, not byte-wise; a failed `io.Copy` leaves a prefix whose length the environment chooses.
- Left out: a bind mount copies the source's subtree as a value. Later writes through one view are therefore not seen through the other, which the model does not need.
- Left out: `filepath.Clean` is an uninterpreted function supplied by the environment.
- Left out: `filepath.Join` is modelled as `dir + "/" + name` with the root held as the empty path. It matches the real function whenever `dir` is a clean absolute path and `name` is a single entry name. Absolute target directories are what the drivers are given. For a relative `dir` such as `.` it does not match: `filepath.Join(".", "n")` is `n`. Because of that form, the log entries and errors of a pass over `/` name the root as the empty path where the program writes `/`.
- Left out: paths are looked up literally and never resolved through symlinks, where `mount(2)`, `os.MkdirTemp` and `os.ReadDir` follow them. A target that is a symlink (`/var/run` pointing to `/run`) or lies under one (`/etc/ssl` once `/etc` has been copied up and `ssl` has become the link `.roNNN/ssl`) makes the model's bind fail with `NotDir`, where the program mounts through the link and goes on.
- Left out: `os.MkdirTemp` retries on a name clash. The model tries one name chosen by the environment and reports a clash as a failure.
- Left out: `copyup.go` declares the `ChildDriver` interface with both `CopyUp` and `CopyUpWithExclusion`. The exclusive driver as written has only `CopyUp`, which is what is modelled.
- Left out: concurrency and real kernel semantics (mount propagation, namespaces, permissions). Kernel refusals are the environment's choice.
- Left out: mount stacks are keyed by path. A mount point hidden under a later mount is out of view, and `RemoveAll` treats its path as missing (`HiddenNotBusy`), so copying up `/run` over a mounted `/run/lock` links `lock` as the program does. But if a new node later appears at such a path, the model counts it busy again. Also, `RemoveAll` of a path that is not itself a mount point succeeds even when a mount point lies below it, where the kernel would refuse with `EBUSY`.
- Left out: a mount on the caller's own root directory. The model treats a mount on `/` like a mount on any other directory, so it hides every absolute path below. The kernel does not switch the caller's root to the new mount: absolute lookups still start at the old root, and a mount stacked on it is never crossed. In the program the tmpfs on `/` therefore hides nothing from the caller, and its pass over `/` goes on at `os.MkdirTemp("/", ".ro")` on the old root. An unprivileged caller is normally refused there with `EACCES`. Where that is permitted, the mount move or the listing of the staging directory succeeds, and the link loop's `os.RemoveAll` of `/.roNNN`, itself a mount point, fails with `EBUSY`. `HiddenNotBusy`, `HiddenNotMoved` and the `NotFound` branch of `FileSystem.Move` hold for every directory except the caller's root.
- FileSystem.TmpfsOverRoot: states the model's view of a tmpfs on `/`, not the program's. In the kernel a tmpfs on the caller's own root hides nothing from its absolute lookups.
- TmpfsSymlink.RootMoveFails: holds of the model only. In the program the staging directory stays reachable after the tmpfs on `/`, so the pass goes on at `os.MkdirTemp("/", ".ro")` on the old root, as the line above describes.
- BindmountExclusive.RootListingFails: holds of the model only. In the program the listing of the staging directory is not hidden by the tmpfs on `/`, so the pass goes on, as the line above describes.
- BindmountExclusive.CopyUpDirDone: requires that no original entry of `d` carries the name `os.MkdirTemp` picks for the shadow directory. The name is picked on the fresh tmpfs, so the original entries are not looked at. In that rare case the link loop's `RemoveAll` on that name deletes the shadow directory itself, and the contract does not describe that outcome.
- BindmountExclusive.CopyUpDirDone: requires the staging directory and `d` to be apart, neither inside the other. This excludes copying up `/` or a directory that contains the staging directory.
- TmpfsSymlink.CopyUpDirDone: requires the staging directory and `d` to be apart, for the same reason.
- TmpfsSymlink.CopyUp: stated as the prefix property only. That it is `CopyUpWithExclusion` with the empty list holds by its definition, and `TargetsNoExclusion` states what the empty list means.
