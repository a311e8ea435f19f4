# Verified model of the edgi-os upgrade, boot and configuration code

This project models the parts of edgi-os that must not go wrong on a machine nobody watches, and
proves what they promise:

* **Upgrade.** `CopyComponent` replaces one versioned component call by call, with deferred
  clean-ups (`Component`, on the directory of `Disk`). Proved: crash safety under every mix of
  failing calls and every cut-off (`CrashSafety`), rollback (`Rollback`), the exact condition of
  success after any history (`History`), the meaning of `current` and `previous` over a history of
  upgrades (`Aliases`), and the upgrade command with any number of processes contending for its lock
  (`Upgrade`), down to what a finished one has done and that it does finish (`Completion`).
* **Relocation.** `copyFS` moves the root file system into a new one with three walks over a tree
  they change (`FileTree`, `CopyTree`, `MoveFiles`, `Relocate`).
* **Image scan.** `inFile` finds the image appended to the executable (`Scanner`).
* **Kernel command line.** A backtracking tokenizer and a fold into nested maps (`Regex`, `Cmdline`,
  `CmdlineRoundTrip`, `Values`, `Accumulate`), and the way from there to a field (`CmdlineConfig`).
* **Configuration keys.** Two in-place rewrites of maps in an unknown order, and writing and reading
  back (`Naming`, `CamelCase`, `Renaming`, `KeyConversion`, `Reading`, `WriteRead`, `CloudConfig`).
* **File rewriters.** `/etc/environment` (`Text`, `Quoting`, `Environment`, `PlainEnvironment`,
  `Reapplying`) and the authorized keys (`AuthorizedKeys`).

`dafny verify dfyconfig.toml` checks everything.

## How to read it

*Failures.* A call of the upgrade carries the set of its system calls that fail for no reason in the
directory; a lemma that does not allow all such sets says in a `requires` which it allows. A directory
or file tree keeps a ghost history of the states after each call, so a property of every history entry
holds wherever a run is cut off. In the tree walks failing calls are the environment's choice, and each
is recorded: a failing removal in `failures`, any other call that fails though nothing in the tree is in
its way in `faults`. So success can be said to be exactly the absence of faults.

*Two forms of the upgrade.* `Component.CopyComponent` is the procedure, and it is proved to make
exactly the calls of the step function `Component.Step`, with the same states in between and the
deferred clean-ups last-in-first-out. All lemmas about runs speak of that step function.

*Environment facts.* `os.Rename` does not replace an existing directory nor anything by a directory
(`Disk.Directory.Move`, for pkg/system/component.go:92, 95, 102 and 122); a rename over a link or file
is atomic; a failed copy of a directory leaves a directory; `os.Symlink` and `Mkdir` fail on an
existing name; copying a link copies its text; link targets are single names in the same directory, as
the builds make them; following links gives up after 40 of them. Copying a file or directory onto itself through a link cuts
it first, which can only concern a `current` that is no link (`History.MayTruncate`). Version names are single path components other than
`current`, `previous` and `current.tmp`, and the temporary directory's name is the version followed
by digits, not in use and not the target of a link. `current` is only called valid when it names a
directory other than the name `previous`. `filepath.Walk` reads a directory's names before it calls
back. A process that dies releases its lock. `bool := *` leaves to the environment what the program
does not decide: map order, failing calls, whether a key inserted during a `range` is visited.
Characters are Unicode scalar values; upper and lower case are those of ASCII.

## What the proofs found

Each of these is a lemma; the code is modelled as it is.

* *Crash safety has one exception.* A failing look-up of the destination's version is ignored. If it
  fails while the source offers that very version, the live directory is renamed to `.old`, and a
  cut-off then leaves `current` dangling
  (`CrashSafety.IgnoredFailureBreaksCurrent`, exact condition in `CrashSafety.CrashSafetyExact`).
* *Rollback has two exceptions.* A version path that is a plain file is deleted for good, and a
  version path that is a link to a directory overwrites a plain `.old` entry (`Rollback.RollbackExact`).
* *A failing swap loses `previous`.* The last rename is reported when it fails, but `previous` has been
  rebuilt by then: it names the version that is still current, and what it named before is forgotten
  (`Aliases.FailedSwapLosesPrevious`, exact condition in `Aliases.FailuresKeepAliasesExact`).
* *A left-over `current.tmp` blocks for good.* Once an upgrade is cut off with its temporary link in
  place, no later one gets past its first change (`History.LeftoverBlocks`).
* *An overwritten version cannot come back.* Copying over an existing version directory leaves its
  `.old` behind, because the deferred rename is refused; once another version has become current, no
  upgrade back to that version succeeds (`History.OverwritingBlocksReturn`).
* *Relocation needs a top-level mount.* The deletion walk spares a new root exactly when the top-level
  directory it is in is on another device (`Relocate.RootSurvivesExact`).
* *The magic can be hidden* by a prefix of it that ends just before, such as one underscore
  (`Scanner.HiddenByUnderscore`).
* *A quoted value that ends in `=` swallows the next quoted item* on the command line, be its value or
  the whole item in quotes (`CmdlineRoundTrip.RoundTripExact`).
* *Of a repeated string-map key the first value counts*, where a list field keeps all
  (`CmdlineConfig.PrintedEntryReached`).
* *A key can be glued to the last line.* The first key added to an authorized-keys file gets a line of its
  own exactly when the file is empty or ended by a line feed (`AuthorizedKeys.OwnLineExact`).
* *Applying the environment again can change it.* A configured key that begins with `export` is read back
  as the rest of it, and then the order decides which value wins (`Environment.OrderMatters`). The exact
  condition for the second application to change nothing, for all inputs and all orders, is
  `Reapplying.ReapplyExact`.
* *Where the documentation says otherwise.* The `key[key]=value` form of the main README (line 297) is
  not implemented: keys are split at dots only (`Cmdline.BracketKey`). Label, sysctl and environment keys with capitals are
  rewritten when a configuration is saved, and their values lose white space at both ends when it is
  read (`WriteRead.WriteThenReadExact`).

## Model

| member | source | states |
|---|---|---|
| Component.RunEnds | pkg/system/component.go:48-127 | Whatever fails, an upgrade returns after at most 17 system calls, and later steps change nothing. |
| Component.RunStack | pkg/system/component.go:70-95 | At every point of every run the pending clean-ups are exactly those of the calls already made, last one first. |
| Component.SkippedExact | pkg/system/component.go:49-57 | An upgrade is skipped iff both look-ups work and find the same version; then, and when the source has no version, the directory is as before at every step. |
| Component.RemountFirst | pkg/system/component.go:58-62 | The remount is called iff it was asked for and there is something to copy, as the third call; nothing changes before it has succeeded; when it fails, nothing ever changes and the upgrade reports failure. |
| Component.CopyComponent | pkg/system/component.go:48-127 | The procedure ends in the state and with the outcome of the step machine, and its history is the machine's trace, state by state. |
| Component.Stage | pkg/system/component.go:69-86 | The part that stages link, temporary directory and copy continues the same trace to its end. |
| Component.MoveAside | pkg/system/component.go:88-99 | The part that frees the version's name (rename a directory, delete anything else) continues the same trace. |
| Component.Activate | pkg/system/component.go:101-109 | The part that renames the copy into place continues the same trace. |
| Component.SwitchAliases | pkg/system/component.go:111-126 | The part that rebuilds `previous` and swaps `current` continues the same trace. |
| Component.RunDeferred | pkg/system/component.go:74-95 | The clean-up loop, from any pending stack, reaches the machine's final state and outcome. |
| CrashSafety.LiveIsFound | pkg/system/component.go:22-44 | A valid `current` is resolved to the version it names, with that directory's mode. |
| CrashSafety.CrashSafe | pkg/system/component.go:48-127 | After any number of calls, any of them failing (the ignored look-up only when it cannot matter), `current` points to the old version with its contents untouched, or to the new one with exactly the source's contents; the latter iff the run is past the swap. |
| CrashSafety.IgnoredFailureBreaksCurrent | pkg/system/component.go:53-57 | A concrete run of seven calls after which `current` dangles, because the ignored look-up failed. |
| CrashSafety.CrashSafetyExact | pkg/system/component.go:48-127 | Safe under every choice of failures and cut-offs iff the versions differ, or `current.tmp` or the version's `.old` is there already. |
| Rollback.StagedStat | pkg/system/component.go:89-90 | Link and copy, once staged, do not change what the version's own path resolves to. |
| Rollback.RollsBack | pkg/system/component.go:70-104 | A run that ends before its rename into place leaves the directory exactly as it found it, including a version moved to `.old` and back. |
| Rollback.ClobberedForGood | pkg/system/component.go:91-99 | When moving aside loses an entry, some run with working clean-ups does not restore the directory. |
| Rollback.RollbackExact | pkg/system/component.go:70-104 | Every failed run restores the directory iff moving the version aside loses nothing or a left-over `current.tmp` stops the run first. |
| History.SuccessExact | pkg/system/component.go:69-126 | With no spontaneous failures, an upgrade to another version succeeds iff the directories are ready for it (the conditions of `Ready`); otherwise it fails and `current` is untouched. |
| History.CopiedMeansReady | pkg/system/component.go:48-127 | Whatever fails or does not: success implies those conditions, a skip implies equal versions, and without success `current` is the entry it was, unless it is no link and `previous` could not be removed. |
| History.HistoryTidies | pkg/system/component.go:48-127 | Any list of upgrades, whole or cut short, with any failures, keeps the directory tidy: versions are directories, `current` and a left-over `current.tmp` are links. |
| History.SuccessAfterHistory | pkg/system/component.go:69-99 | After any list of whole or cut-short upgrades: the next one succeeds iff no `current.tmp` is left over and the version and its `.old` are not both there; otherwise `current` is untouched. |
| History.LeftoverBlocks | pkg/system/component.go:69-74 | With a `current.tmp` left over, no list of later upgrades, whole or cut short, copies anything or changes the directory. |
| History.OthersStay | pkg/system/component.go:69-126 | A version directory other than the upgrade's own is still there at every step, whatever fails. |
| History.OverwritingBlocksReturn | pkg/system/component.go:90-95 | Three runs: a version is copied over itself, another upgrade makes another version current, and then every upgrade back to the first one fails, whichever calls fail. |
| Aliases.OneUpgrade | pkg/system/component.go:53-126 | A copying run leaves `current` at the source's version and `previous` at the one it found, and they differ; a skipping run changes nothing; a failing run keeps `current`, and keeps `previous` unless it failed at the swap, when `previous` becomes `current`. |
| Aliases.FailedSwapLosesPrevious | pkg/system/component.go:111-124 | A run whose only failing call is the swap: it fails, `current` is as before, and `previous` now names the same version. |
| Aliases.FailuresKeepAliasesExact | pkg/system/component.go:53-124 | With working best-effort calls, every failing run keeps both aliases iff the versions agree, or a left-over link or the version's occupied name stops every run, or `previous` is `current` already. |
| Aliases.AliasesFollowHistory | pkg/system/component.go:53-126 | After any list of upgrades, failing or not, `current` is the last version copied and `previous` the one before it, or `current` itself if a swap has failed since; no two neighbours in the history are equal. |
| Upgrade.MutualExclusion | pkg/cli/upgrade/upgrade.go:122-131 | In every reachable state of any number of processes at most one is between lock and unlock, crashes included. |
| Upgrade.LockExact | pkg/cli/upgrade/upgrade.go:122-131 | In every reachable state the lock is a process's iff that process stands between lock and unlock: neither a finished nor a dead one leaves it behind. |
| Upgrade.Serializable | pkg/cli/upgrade/upgrade.go:122-164 | Every reachable disk state is that of a serial list of whole or cut-short upgrades, and a finished process rebooted iff it was told to and one of its own upgrades copied. |
| Upgrade.ReplayLive | pkg/cli/upgrade/upgrade.go:135-158 | Any serial list of whole or cut-short upgrades, none of them blind to the live version, keeps a component's `current` at its start version, unchanged, or at a complete copy of an offered one. |
| Upgrade.NextValidExact | pkg/cli/upgrade/upgrade.go:135-158 | That condition is exact: after any log the next upgrade keeps `current` valid under all failures and cut-offs iff it offers another version, or `current.tmp` or the version's `.old` is there. |
| Upgrade.CurrentAlwaysValid | pkg/cli/upgrade/upgrade.go:122-158 | The same in every reachable state of any number of contending, failing and dying processes. |
| Upgrade.SoundAlwaysValid | pkg/cli/upgrade/upgrade.go:122-158 | In particular when the look-up of the destination's version never fails by itself, whatever else does. |
| Upgrade.RunIsSerial | pkg/cli/upgrade/upgrade.go:133-158 | An invocation on its own is the serial run of its components; the remount flag stays on until the first copy, and the result says whether there was one. |
| Upgrade.Command.UpgradePart | pkg/cli/upgrade/upgrade.go:135-142 | One component is upgraded with the current remount flag, which a copy turns off. |
| Upgrade.Command.Run | pkg/cli/upgrade/upgrade.go:113-186 | Without the lock nothing changes. With it, every wanted directory is as its own call leaves it, with the remount asked for unless an earlier wanted component copied, and every other one unchanged; it reboots iff told to and one of the three copied. |
| Upgrade.Command.RunComponents | pkg/cli/upgrade/upgrade.go:133-158 | The same for the three directories one by one: edgi, k3s, kernel, each only when wanted; the flag is off afterwards, and something was copied, iff one of them copied. |
| Upgrade.RunSpelled | pkg/cli/upgrade/upgrade.go:133-158 | Running the list of wanted components, as the reachable states do, comes to just that for each directory, the flag and the result. |
| Completion.FinishedRanAll | pkg/cli/upgrade/upgrade.go:122-164 | In every reachable state of any number of processes, a finished one has begun exactly the wanted components, in the order edgi, k3s, kernel, and each ran to its end by the plan's own call, with the remount asked for as long as none of its own upgrades had copied. |
| Completion.FinishesExact | pkg/cli/upgrade/upgrade.go:122-164 | A process that asks for the lock in any reachable state and is not killed finishes within 61 more turns of its own if the lock was free, whatever the others do; if it was not free, it gives up and never begins an upgrade. |
| CopyTree.VisitDir | pkg/transferroot/transferroot.go:64-93 | The callback reproduces one directory with owner and mode, changes nothing outside the new root, says to skip exactly the directories of other devices, and fails iff a call fails by itself. |
| CopyTree.WalkDirs | pkg/transferroot/transferroot.go:64-95 | The first walk ends although its tree grows; on success exactly the directories reached on the root device are reproduced; nothing outside has changed at any step; it fails iff a call fails by itself. |
| CopyTree.WalkChild | pkg/transferroot/transferroot.go:64-71 | One name of a directory: looked up, walked if it is a directory, and otherwise passed over. |
| MoveFiles.MoveRegular | pkg/transferroot/transferroot.go:115-160 | One file is moved: at every step it is whole in one of the two places, also when a call fails; afterwards its contents, owner, mode and times are in place. It succeeds iff no call but the removal fails by itself. |
| MoveFiles.CopyBytes | pkg/transferroot/transferroot.go:125-127 | The copy loop adds bytes in order until all have arrived or a call fails, and succeeds iff none does; every state in between is without loss and within the space bound. |
| MoveFiles.MoveOther | pkg/transferroot/transferroot.go:136-160 | Links are reproduced with target, owner and times, and devices and pipes as some node with their owner, mode and times; nothing is lost at any step. It succeeds iff the node is no socket and of known type and no call fails by itself; sockets and unknown types change nothing. |
| MoveFiles.WalkFiles | pkg/transferroot/transferroot.go:97-165 | The second walk moves exactly the files reached on the root device; every recorded state loses nothing, and while removals work one file at a time exists twice and the tree holds at most the largest file's bytes more than at the start. It succeeds iff no other call fails by itself and no file reached is a socket or of unknown type. |
| MoveFiles.WalkEntry | pkg/transferroot/transferroot.go:97-165 | The same for one name of a directory, be it a directory, a regular file or something else. |
| FileTree.BytesPut | pkg/transferroot/transferroot.go:97-136 | The bytes of a tree, the sum over its regular files, change with a node by exactly its size. |
| Relocate.MovedIsComplete | pkg/transferroot/transferroot.go:64-165 | After both walks the tree below the new root equals the original one as far as it lies on the root device, and holds nothing else. |
| Relocate.ForeignIsEmpty | pkg/transferroot/transferroot.go:87-91 | A mount point of another device is there as a directory with nothing below it. |
| Relocate.BuildDirs | pkg/transferroot/transferroot.go:52-95 | Mount and first walk: on success all directories are there, and at every step nothing but directories has appeared. It succeeds iff there is a directory to mount on and no call fails by itself. |
| Relocate.CopyAll | pkg/transferroot/transferroot.go:63-165 | Both walks together: every recorded state is without loss and within the space bound. Success means the tree is complete, and comes iff there is a directory to mount on, no call but a removal fails by itself and no file reached is a socket or of unknown type. |
| Relocate.DeleteOld | pkg/transferroot/transferroot.go:171-197 | The deletion walk succeeds iff no look-up fails by itself, and leaves one of the outcomes that visiting the top-level names can have; every top-level directory of another device is untouched, and when no removal is recorded as failed nothing else is left. |
| Relocate.DeleteTop | pkg/transferroot/transferroot.go:180-194 | The callback at one top-level name: a directory of another device stays, any other is removed as a whole, anything else is removed. |
| Relocate.StillComplete | pkg/transferroot/transferroot.go:182-186 | Since the new root is such a directory, the relocated tree is still complete afterwards. |
| Relocate.RootSurvivesExact | pkg/transferroot/transferroot.go:171-197 | Every outcome of the deletion walk keeps what is below a new root iff its top-level directory is on another device. |
| Relocate.MountedOk | pkg/transferroot/transferroot.go:228-233 | Mounting a new device on a top-level directory gives the layout that the walks need. |
| Relocate.MoveTree | pkg/transferroot/transferroot.go:50-197 | Mount and all three walks: no loss and, if the removals of the second walk succeed, at most the largest file's bytes more than at the start in every state until the deletion begins. They succeed iff there is a directory to mount on, no call but a removal fails by itself and nothing reached is a socket or of unknown type; then the tree at the new root is complete, and if no removal failed after the copying only top-level directories of other devices are left of the old one. |
| Relocate.CompleteIsRelocated | pkg/transferroot/transferroot.go:199-210 | A complete tree below the new root, once that is the root, has every path of the original root device where it was, with its bytes or link text, owner, mode and times, and nothing else. |
| Relocate.CopyFS | pkg/transferroot/transferroot.go:50-211 | The whole relocation: the same promises on the way and the same exact condition of success, and then the original tree of the root device is at the same paths on the new device. |
| Scanner.InFile | pkg/enterchroot/enter.go:173-208 | However the reads cut the file, the answer is that of one pass over the whole stream; an error comes exactly from a failing read. |
| Scanner.CounterMeans | pkg/enterchroot/enter.go:194-203 | A positive counter k means that the last k bytes are the magic's first k and that the counter was zero before them. |
| Scanner.CountsUp | pkg/enterchroot/enter.go:195-199 | From a zero counter, reading the magic's first k bytes counts to k, and the whole magic is a hit. |
| Scanner.ZeroIffClear | pkg/enterchroot/enter.go:194-203 | While nothing is found, the counter is zero exactly at the clear positions, defined on the bytes alone. |
| Scanner.ScanExact | pkg/enterchroot/enter.go:186-207 | The offset returned is the end of the first occurrence that starts at a clear position; not found iff there is none. |
| Scanner.FirstOccurrence | pkg/enterchroot/enter.go:186-205 | The first occurrence of all is returned when no proper prefix of the magic ends just before it. |
| Scanner.HiddenByUnderscore | pkg/enterchroot/enter.go:200-202 | A stream that holds the magic behind one underscore and is not found: there is no fallback on a mismatch. |
| Scanner.BuildThenScan | images/30-bin/Dockerfile:15-17 | Scanning executable, magic and image glued together returns the image's offset iff the executable alone has no hit and ends at a clear position. |
| Scanner.CleanExecutable | images/30-bin/Dockerfile:15-17 | That holds for every executable that neither contains the magic nor ends in a proper prefix of it. |
| Scanner.AppendedImageFound | images/30-bin/Dockerfile:16-17 | The same for the text `_sqmagic_` that the build appends, spelled out: what follows it is found when the executable neither contains that text nor ends in a beginning of it. |
| Cmdline.PatternSolved | pkg/config/read.go:158 | The preferred match of the regular expression under leftmost-first semantics has the length that a direct computation gives. |
| Cmdline.TokensAreMatches | pkg/config/read.go:158-171 | All matches of the expression, one after the other, are the tokens so computed. |
| Cmdline.ReadCmdline | pkg/config/read.go:156-192 | A missing file gives nothing; otherwise the loop computes the fold of the assignments that the expression's matches spell. |
| Cmdline.SplitJoin | pkg/config/read.go:177 | Splitting undoes joining for every key path whose segments have no dots. |
| Cmdline.BracketKey | pkg/config/read.go:172-177 | An item `a[b.c]=v` has the key path `a[b`, `c]`: brackets are nothing special. |
| Cmdline.ParsePrinted | pkg/config/read.go:172-177 | Splitting a printed item gives back its key path and value, for flags, bare and quoted values, and items quoted as a whole. |
| CmdlineRoundTrip.RoundTripExact | pkg/config/read.go:156-177 | For every list of items, those quoted as a whole included, and every spacing by blanks, tabs, line feeds, carriage returns and form feeds, reading the printed line gives the same paths and values in order iff no item with quotes follows a quoted value without white space that ends in `=`. |
| CmdlineRoundTrip.WholeItemRead | pkg/config/read.go:171-177 | The file `"hostname=a b"` and a line feed is one item: `hostname` is `a b`. |
| CmdlineRoundTrip.PrintedFieldCollects | pkg/config/read.go:156-189 | End to end: the value at a printed key path, coerced to an array, holds the printed values of that path, in order. |
| CmdlineConfig.FieldReached | pkg/config/rename.go:16-23 | A value under a path of field aliases is read, after renaming in whatever order, as the type of the field that the path spells demands, and ends in that field, when no other spelling is there. |
| CmdlineConfig.PrintedFieldReached | pkg/config/read.go:156-192 | From a printed command line to the field: whatever spelling is used throughout, the array field holds exactly the printed values, in order. |
| CmdlineConfig.PrintedTruth | pkg/config/coerce.go:78-85 | The same for a boolean field with one item for it: it is true iff the item is a flag or says `true`, and false otherwise. |
| CmdlineConfig.PrintedText | pkg/config/read.go:171-177 | The same for a text field: it holds the item's value as it is, or `true` for a flag. |
| CmdlineConfig.StringMapSpelled | pkg/config/coerce.go:56-67 | A string map is read with its keys, texts trimmed, truth values as the words `true` and `false`, and the first of several texts. |
| CmdlineConfig.PrintedEntryReached | pkg/config/coerce.go:56-67 | From a printed command line to an entry of a string map: it holds the first value printed for it, without the white space around it. |
| CmdlineConfig.PassIsPassphrase | pkg/config/rename.go:16-48 | In a wireless network's data `pass` and `password` mean the field `passphrase`, whatever the order of renaming. |
| CmdlineConfig.DnsReachedHere | pkg/config/config.go:9-51 | In this system's configuration `edgi.dns_nameserver` spells the field `edgi.dnsNameservers`, as the manual's example has it. |
| CmdlineConfig.SilentReachedHere | pkg/config/config.go:9-59 | There `edgi.install.silent` is the path of a boolean field. |
| Values.GetAfterPut | vendor/github.com/rancher/mapper/values/values.go:21-58 | What every path looks up after a store: the value, an object above it, nothing below it, and anything else as before. |
| Values.BlockedPut | vendor/github.com/rancher/mapper/values/values.go:43-50 | A store whose way is blocked by something that is not an object changes nothing. |
| Accumulate.FoldExact | pkg/config/read.go:170-189 | For every list of assignments and every path: exactly the values of the assignments that took effect, in order, one as a string and several as a list. |
| Accumulate.ValuesInOrder | pkg/config/read.go:178-188 | The values of a path are those of the places in the list that assign to it, one for each, in order. |
| Accumulate.AcceptedExact | pkg/config/read.go:178-188 | Every assignment takes effect iff no path is a proper prefix of another. |
| Accumulate.ArrayFieldCollects | pkg/config/coerce.go:69-76 | After coercion an array field holds exactly the values given, in order, for one value as for many. |
| Naming.YamlFixed | vendor/github.com/rancher/mapper/convert/convert.go:252-278 | A key is its own YAML spelling iff it has no capital. |
| CamelCase.CamelToSnake | vendor/github.com/rancher/mapper/convert/convert.go:252-278 | Camel case becomes snake case: every word behind the first gets an underscore, and its capital becomes small. |
| CamelCase.LeadingCapitals | vendor/github.com/rancher/mapper/convert/convert.go:256-275 | Capitals at the very front become small without underscores. |
| CamelCase.PluralAliases | pkg/config/rename.go:34-42 | A name without its plural `s` or `es`, in snake case and in small letters, is an alias of it, and so is the name itself. |
| Naming.FuzzyNames.AddName | pkg/config/rename.go:25-29 | Enters the three spellings of a name, and no others. |
| Naming.FuzzyNames.AddField | pkg/config/rename.go:34-42 | Enters the spellings of a field and, with a plural ending, of its singulars. |
| Naming.FuzzyNames.ModifySchema | pkg/config/rename.go:31-48 | For every order of the fields: a key is in the table iff it is an alias of a field or a pass word; it leads to a field it is an alias of, the pass words to the passphrase. |
| Naming.FuzzyNames.ToInternal | pkg/config/rename.go:16-23 | Ranging over the growing map, whether or not inserted keys are visited, gives what some tour gives that visits every original key once, reading what is there by then. |
| Renaming.TableFlat | pkg/config/rename.go:31-48 | With separate alias sets no name in the table leads on to another one. |
| Renaming.OrderIndependentExact | pkg/config/rename.go:16-23 | All visiting orders give the same result iff aliases of one field that are both present agree; and then every field has the value of its alias and everything else is as before. |
| KeyConversion.ToYAMLKeys | pkg/config/write.go:41-52 | For every order, with or without visits to inserted keys: at every level exactly the converted keys, each with the converted value of a key it comes from. |
| KeyConversion.ConvertedOnce | pkg/config/write.go:41-52 | When converted keys are distinct there is one outcome: no leaf is lost, whatever the order. |
| KeyConversion.OneConversionExact | pkg/config/write.go:41-52 | There is one outcome iff at every level values whose keys come to one converted key have the same single conversion. |
| Reading.RenameFields | pkg/config/rename.go:16-48 | Building the alias table and renaming with it gives what some table and some visiting order give. |
| Reading.ReadField | pkg/config/coerce.go:17-85 | Converting a field and the structures below it gives a result that the reading relation allows, order by order; what that is for lists, booleans, texts and string maps is said end to end by the CmdlineConfig rows. |
| Reading.ReadStruct | vendor/github.com/rancher/mapper/mapper.go:82-115 | The same for a structure: rename, then read every field that is there. |
| WriteRead.LevelAgrees | pkg/config/write.go:41-52 | At every level of written data aliases that are both present agree, so renaming has one outcome. |
| WriteRead.LevelRead | pkg/config/rename.go:16-48 | For every alias table and every visiting order, each field is read from the one key it was written under, and no other field appears. |
| WriteRead.MapRoundTrip | pkg/config/coerce.go:56-67 | A string map is read back as it was iff its converted keys have no capitals and its values no white space around them. |
| WriteRead.FieldRoundTrip | pkg/config/coerce.go:17-85 | For every field type and value and everything that reading what was written may give: it is the value iff the value survives. |
| WriteRead.StructRoundTrip | pkg/config/rename.go:16-48 | For every structure: renaming and coercion give back the value iff all its fields survive. |
| WriteRead.ToBytes | pkg/config/write.go:30-39 | What is encoded is a key conversion of the configuration without its install section. |
| WriteRead.OnlyInstallGoes | pkg/config/write.go:31 | Clearing the install section keeps every other key at the top and below `edgi`, with its value. |
| WriteRead.WriteThenReadExact | pkg/config/write.go:30-52 | For every configuration, every order of converting keys and every order of renaming aliases: what is read is the configuration without the install section iff string-map keys have no capitals and their values no outer white space. |
| CloudConfig.CloudConfigOk | pkg/config/config.go:9-59 | The field names of this system's structures meet the condition of the round trip: no spelling of one is a spelling of another. |
| CloudConfig.CloudConfigRoundTrips | pkg/config/config.go:9-59 | So the round trip holds for this system's configuration. |
| Quoting.UnquoteQuote | pkg/cc/funcs.go:296-311 | Unquoting undoes quoting for every string, and a quoted string is one line. |
| Quoting.QuotePlain | pkg/cc/funcs.go:311 | Printable ASCII without quotes and backslashes is quoted as it stands. |
| Quoting.EscapesSpelled | pkg/cc/funcs.go:311 | The escapes for quote, backslash and control characters are Go's, letter by letter. |
| Quoting.UnquoteSpelled | pkg/cc/funcs.go:297 | Raw literals and single characters in single quotes are read too; a text that is not wrapped in one pair of quotes is no literal. |
| Quoting.CodesSpelled | pkg/cc/funcs.go:297 | Octal and hexadecimal codes stand for the character of that number. |
| Environment.LineExact | pkg/cc/funcs.go:284-311 | A printed entry is read back as itself iff its key has no `=`, no leading white space, and does not begin with `#` or `export`. |
| Environment.BadKeyShrinks | pkg/cc/funcs.go:285-293 | Any other key on one line is read back shorter or not at all. |
| Environment.FileExact | pkg/cc/funcs.go:281-313 | Reading a printed file gives back the map, for every printing order and all values, iff all keys are of that kind. |
| Environment.ReadEntries | pkg/cc/funcs.go:280-303 | The reading loop computes the parse of the file, whose lines PlainEnvironment.ReadsLine and Environment.LineExact describe; a file that cannot be read counts as empty. |
| Environment.WriteEntries | pkg/cc/funcs.go:307-313 | The text written lists every entry once, in some order. |
| Environment.ApplyEnvironment | pkg/cc/funcs.go:276-319 | No configured entries: nothing is written; otherwise the text lists exactly the old map overridden by the configuration. |
| Environment.ReadKeyOk | pkg/cc/funcs.go:284-300 | Of the keys read from a file exactly those that begin with `#` or `export` do not survive being written. |
| Environment.ApplyOnceExact | pkg/cc/funcs.go:276-319 | The file written reads as old overridden by new, whatever the order, iff every configured key survives and no key in the file begins with `#` or `export`. |
| PlainEnvironment.ReadsLine | pkg/cc/funcs.go:284-301 | A line `k=v` whose value is not wrapped in quotes reads as that key and value, with white space around the line and behind an `export`; two or more bytes without `=` read as a key with an empty value; comments and blank lines as nothing. |
| PlainEnvironment.PlainFileKept | pkg/cc/funcs.go:276-319 | Applying a configuration to a file of such lines, with or without a final line feed: every entry that is not overridden reads as the last line that sets it says, every configured one as configured, and there are no others. |
| Reapplying.ReapplyExact | pkg/cc/funcs.go:276-319 | For every configuration and file, whatever the keys hold: no second application changes what is read, in any orders, iff no configured entry is read under one key with an entry of another value, a key read as another one next time finds its own value there, and a key not read as itself is read from another entry. |
| Reapplying.PlainReapplyExact | pkg/cc/funcs.go:289-305 | When no key that is read looks like a comment or an `export`, only the first of these conditions matters. |
| Reapplying.PrintedUnions | pkg/cc/funcs.go:281-313 | Reading a printed file, line feeds in keys included, puts together what its entries are read as on their own. |
| Reapplying.SurvivorsSteady | pkg/cc/funcs.go:276-319 | The condition holds when every key survives, which is what the format is meant for. |
| Reapplying.ApplyTwice | pkg/cc/funcs.go:276-319 | Under the exact condition two applications in any orders read alike. |
| Environment.OrderMatters | pkg/cc/funcs.go:289-300 | Otherwise it may: with a configured key that begins with `export`, two applications in different orders read differently. |
| AuthorizedKeys.AllKeysIn | pkg/ssh/ssh.go:123-126 | After any list of keys the old content is a prefix of the new and every non-empty key is in it. |
| AuthorizedKeys.SecondPass | pkg/ssh/ssh.go:123-126 | A second pass over the keys, in any order and number, changes nothing. |
| AuthorizedKeys.OnlyMissingAdded | pkg/ssh/ssh.go:123-126 | What is added is lines of keys that were missing, each once. |
| AuthorizedKeys.OwnLineExact | pkg/ssh/ssh.go:123-126 | A new key gets a line of its own iff the text was empty or ended by a line feed. |
| AuthorizedKeys.AddedOnLines | pkg/ssh/ssh.go:123-126 | In such a text all keys that are added stand on lines of their own, and it stays such a text. |
| AuthorizedKeys.WriteFileAtomic | pkg/util/util.go:12-29 | At every step the file holds the old or the new text; it holds the new one iff success is returned; success iff no call failed; the temporary file is gone. |
| AuthorizedKeys.AuthorizeKey | pkg/ssh/ssh.go:94-132 | At every step the file holds the text before or after this key. It ends with the key added iff no call before the change of owner fails, and success is returned iff that one works too or there was nothing to add. |
| AuthorizedKeys.AuthorizeKeys | pkg/ssh/ssh.go:45-49 | The loop, with failing keys skipped: every recorded state holds the text between two keys; with temporary names of their own every key whose calls work is in the final text, whichever others failed; without failures that is the fold of all keys. |

## Left out

- Mounts, `pivot_root`, `chroot`, `exec`, loop devices, resource limits and `/proc` probing have no logic to prove; `findRoot`'s environment variable and suffix checks (pkg/enterchroot/enter.go:157-171) come before the scan and are one branch each.
- Upgrade.Command.Run: the validation of both roots, `sync`, and the way a reboot is carried out are not modelled; the lock is given as free or taken, and released in the step that decides on the reboot.
- Upgrade.CurrentAlwaysValid: it is for logs in which no failing look-up meets its own version unshielded; Upgrade.NextValidExact shows that this cannot be dropped.
- Reapplying.ApplyTwice: it is for inputs that meet the condition of Reapplying.ReapplyExact, without which it is false.
- Component.CopyComponent: a failing copy of a `current` that is no link leaves nothing behind in the model, a real directory copied over another one adds to it or replaces in it entry by entry, and copied onto itself empties all its files, though a link inside would stop it; a missing component directory, and modes and owners of links, are not modelled.
- MoveFiles.MoveOther: device nodes and pipes are some node at the new path, with their metadata, because Mknod and Mkfifo are given Go's mode bits (pkg/transferroot/transferroot.go:145, 149).
- Relocate.CopyFS: directory times, hard links and extended attributes are not claimed; other file systems nested below a top-level directory are not spared by the deletion walk and do not follow the move of the root; the space bound is claimed when no removal of the second walk fails.
- MoveFiles.CopyBytes: it copies any number of bytes at a time; the buffer's size does not matter.
- Scanner.InFile: offsets are unbounded, where the program's have 64 bits.
- Cmdline.ReadCmdline: an unreadable file other than a missing one is an error of the caller and not modelled; texts are sequences of characters, and the pattern's classes are those of ASCII white space.
- `merge`, the readers of YAML files and the merging of their results (pkg/config/read.go:93-154) lie mostly in libraries; `mapToEnv` and `PrintInstall` would add only easy members.
- WriteRead.WriteThenReadExact: YAML and JSON encoding are taken as the identity on values, so that empty fields are simply absent; JSON's case-insensitive field match is not used, and conversions of nested values to text are not detailed.
- Environment.ApplyEnvironment: lines longer than the line reader's limit and text that is not valid UTF-8 are not modelled; a `\x` or octal escape above 127 stands for the character of that number.
- AuthorizedKeys.AuthorizeKey: resolving a key (URLs, HTTP, retries) is an abstract result; permissions and owners of the files, and an authorized-keys path that is a link or directory, are not modelled.
- The k3s argument table, prompts and the installer, and the appliers for modules, sysctl, hostname, DNS, Wifi and commands have few branches and easy members.
- Shell scripts and images, except for how the executable, the magic and the image are joined.
