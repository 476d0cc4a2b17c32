# envbox, verified models

envbox runs a Docker daemon with sysbox inside a container and gives the workspace
container inside it the mounts, GPUs, limits and environment of the outer one. This
project models the parts of it whose behaviour is hardest to see from the code, and
proves what they promise for all inputs, all map iteration orders and all
interleavings.

| file | models |
|---|---|
| `Symlinks.dfy`, `LinkChain.dfy` (on `Chains.dfy`), `LinkNames.dfy` | `SameDirSymlinks` and `recursiveSymlinks`, and both by the names in a directory |
| `GpuMounts.dfy` (on `AppendNew.dfy` and `Picking.dfy`), `Remap.dfy` | `GPUs`, `usrLibGPUs`, the remap and the loop that adds GPU mounts |
| `ProcUnmount.dfy` | `TryUnmountProcGPUDrivers` |
| `Process.dfy`, `History.dfy`, `Ownership.dfy`, `ProcExit.dfy` | the background process, its runs, who owns its channels, and `isProcExited` |
| `DockerdFlow.dfy`, `WatcherVerdict.dfy`, `SecondWatcher.dfy`, `DockerdRuns.dfy` | the dockerd watchers and restart flow, and concrete runs of it |
| `LimitWriter.dfy` | `PrefixSuffixWriter` |
| `MountList.dfy`, `CpuQuota.dfy`, `Subsystem.dfy` | parsers and the printers they undo |
| `Bridge.dfy` | bridge addresses |
| `PullImage.dfy` | the pull and prune loop |
| `GoText.dfy`, `GoPath.dfy`, `FiniteSets.dfy` | `strings`, `strconv`, `path/filepath`, written out; finite sets |

How the code is represented:

- File systems are maps; a path that is missing from a map is a call that fails.
  The regular expressions of `xunix/gpu.go` are predicates on paths, and `afero.Walk`
  is the list of calls it makes.
- Go's random map iteration is a choice of the next unvisited key that is left open,
  in every pass anew, so the theorems hold for every order.
- The background process is a system of interleaved steps. Every object that `New` or
  `Restart` creates is named by its generation, each read of a shared field is a step
  of its own, and `isProcExited` may answer anything at any time. The operating system
  contributes two facts: a signal can only be delivered to a process that has not been
  waited for, and a command starts at most once.
- A daemon, a retrier, an unmount or a write that may fail is a parameter that says
  which calls fail.
- Strings are sequences of code points and Go's `int` has 64 bits. Byte order of
  UTF-8 strings is the order of their code points.

What the proofs say about the code beyond its comments:

- `SameDirSymlinks` is documented to return all links that point to the target. With
  its ten passes it does so in every iteration order exactly if no link needs more
  than ten hops; a directory with one chain of eleven links can lose the last one.
- `recursiveSymlinks` does not return at all exactly if the chain comes back to a path;
  one link below the mountpoint that points to itself is enough.
- Values in a channel of `background.Process` come from the right waiter exactly if
  `isProcExited` does not say "exited" before the waiter has evaluated `d.waitCh` for
  its send (below, an answer is timely if it comes no earlier). Whatever it answers, a value of another waiter can only be the
  `ErrUserKilled` of an earlier generation, so the watcher of the first dockerd never
  takes a killed process for one that exited by itself.
- `isProcExited` does answer early. It cuts `/proc/<pid>/cmdline` at the character `0`,
  but the arguments there end in NUL, so a process that still runs under the name it
  was started with is always reported to have exited.
- After an early answer the goroutine that waits for the restarted dockerd
  (`cli/docker.go`, line 368) can receive the old waiter's value and end envbox while
  the replacement runs.
- The watcher's own restart of dockerd for lack of space (`cli/docker.go`, line 295)
  never succeeds: an exit error is received only from a process that has been waited
  for, so `kill` fails on the signal. A concrete run shows the failure.
- The comment in `PullImage` says that it exits if the image cannot be pulled after a
  prune; the code exits right after the prune, without another pull.
- Without a trailing `/` on the host directory, the prefix test of the remap also
  catches siblings (`/usr/lib64` for `/usr/lib`), which then compete with paths that
  are really beneath it, and the host directory itself.
- `ExecContainer` reads the limiter's buffer without a `Flush`, so the output it
  reports lacks everything after the first N bytes, and says so only from the
  (2N + 1)-th byte on.
- A cgroup v2 quota below -1 is not kept by a copy; it becomes -1.

## Model

| member | source | states |
|---|---|---|
| Symlinks.SameDirSymlinks | xunix/gpu.go:204-268 | In every iteration order the result lists links of the target's directory once each, all of them lead to the target, every link within ten hops is there, and fewer than ten full passes mean that all are there; the errors of ReadDir and of the first failing Readlink are passed on |
| Symlinks.CollectLinks | xunix/gpu.go:211-229 | The keys are the paths of the symlinks among the entries, each with its destination made absolute; it fails exactly if one of them cannot be read, with the first such |
| Symlinks.AllLinksIff | xunix/gpu.go:206-229 | The symlinks of the target's directory are collected exactly if it can be listed and each of them can be read |
| Symlinks.TenPasses | xunix/gpu.go:231-267 | The nested loops refine a search over freely chosen orders and meet its promises |
| Symlinks.OnePass | xunix/gpu.go:238-261 | One round over the map visits every same-directory link once, in an order left open; the flag tells whether anything was added |
| Symlinks.SearchSound | xunix/gpu.go:237-261 | Whatever the orders, everything found reaches the target and is found once |
| Symlinks.SearchFindsWithin | xunix/gpu.go:237-266 | Whatever the orders, n passes find everything within n hops, also when the loop is left early |
| Symlinks.ClosedIsComplete | xunix/gpu.go:262-265 | Leaving the loop because nothing was found means that every link that reaches the target is there, at any distance |
| Symlinks.ReachesBound | xunix/gpu.go:234-237 | A link that reaches the target does so within as many hops as there are links |
| Symlinks.FewLinksAreExact | xunix/gpu.go:201-203 | With no more symlinks than passes the result is exactly the set of links that reach the target |
| Symlinks.WorstPassGainsOneHop | xunix/gpu.go:239-261 | There is an iteration order in which each pass gains exactly one hop |
| Symlinks.PassesAreExactIff | xunix/gpu.go:234-237 | n passes are exact in all iteration orders if and only if no link that reaches the target needs more than n hops |
| Symlinks.TenPassesAreExactIff | xunix/gpu.go:201-237 | The documented promise holds in all orders if and only if no chain needs more than ten hops |
| Symlinks.LongChainsCanBeMissed | xunix/gpu.go:201-237 | A chain of more links than passes loses its last link in some order |
| Symlinks.NoLinkIsSkipped | xunix/gpu.go:240-243 | With real directory entries the same-directory check never skips a link |
| Symlinks.SearchResultIsExact | xunix/gpu.go:201-267 | A result of the code is the set of links that reach the target whenever no chain needs more than ten hops |
| LinkNames.LinkLeadsTo | xunix/gpu.go:219-228 | A link's destination: an absolute text is the destination itself, the name of a neighbour means that entry of the same directory |
| LinkNames.LinkLeadsToParents | xunix/gpu.go:219-228 | A text "../name" means that entry of the parent directory |
| LinkNames.DestinationsAreAbsolute | xunix/gpu.go:225-227 | In an absolute directory every destination is absolute |
| LinkNames.NamedLinksAreFound | xunix/gpu.go:201-267 | By names: a link from which up to ten names lead to the target is found, one that names the target itself in particular |
| LinkNames.FoundLinksAreNamed | xunix/gpu.go:201-267 | By names: where links name neighbours, every result starts a chain of names that ends at the target |
| LinkChain.RecursiveSymlinks | xunix/gpu.go:161-199 | The loop ends with the one result of the walk, if the chain never revisits a path |
| LinkChain.LoopTerminatesIff | xunix/gpu.go:167-196 | The loop terminates if and only if the chain never revisits a path |
| LinkChain.SelfLinkLoops | xunix/gpu.go:167-196 | On a link below the mountpoint that points to itself the loop does not terminate |
| LinkChain.SelfLinkInUsrLib | xunix/gpu.go:167-196 | For instance on /usr/lib/libcuda.so |
| LinkNames.NextIsNeighbour | xunix/gpu.go:190-195 | From an entry of a directory, a neighbour's name leads to the neighbour |
| LinkNames.NextIsParents | xunix/gpu.go:190-195 | A text "../other" leads to an entry of the parent directory |
| LinkNames.BelowIff | xunix/gpu.go:162-170 | Below a mountpoint, with or without a trailing slash, are exactly the paths that go on with a '/' behind its text |
| LinkNames.WalkNames | xunix/gpu.go:157-199 | On names of one directory below the mountpoint, each the link text of the one before and the last no link, the loop ends and returns exactly their paths |
| LinkNames.EscapeYieldsNothing | xunix/gpu.go:158-170 | A link whose absolute text leads outside yields nothing |
| LinkChain.SuccessIsChain | xunix/gpu.go:157-199 | A non-empty success starts at the path, has distinct entries all below the mountpoint, each the resolved target of the one before, and ends at a non-link or an empty link |
| LinkChain.EmptyOrErrorIff | xunix/gpu.go:158-185 | Nothing is returned exactly if the chain leaves the mountpoint, an error exactly if a call on the chain fails with it |
| GpuMounts.AddGpuMounts | cli/docker.go:671-718 | From the mount table and the scan to the final list: base mounts are kept as a prefix, distinct mountpoints stay distinct, every GPU mount, every near link and every library chain is served at its remapped mountpoint; an added table mount is read-only exactly if its own options say so, an added link or library always, and nothing else is added; the devices are the GPU paths in /dev in table order; it fails exactly if listing or walking fails |
| GpuMounts.GPUs | xunix/gpu.go:41-107 | Devices are the GPU mounts under /dev in order; binds are the other GPU mounts and their links, then the scanned libraries whose path is new |
| GpuMounts.ScanMounts | xunix/gpu.go:54-86 | Only GPU mounts outside /dev and links that lead to them are bound, and each with its links within ten hops is |
| GpuMounts.UsrLibGPUs | xunix/gpu.go:109-155 | The binds are the chains of all matching libraries in walk order; only a failure of the top directory is an error |
| GpuMounts.DevicesArePicked | xunix/gpu.go:54-65 | The devices are the paths of the table that name a GPU and lie in /dev, in the order of the table |
| GpuMounts.ScannedComeFrom | xunix/gpu.go:115-141 | Every scanned path is on the chain of a visited file that both patterns accept |
| GpuMounts.ScannedUnderAllNames | xunix/gpu.go:115-141 | A library visited under the first of several names that link to each other is scanned under all of them |
| GpuMounts.AppendUnique | xunix/gpu.go:93-104 | The nested loops append exactly the items whose path is not taken yet |
| GpuMounts.AddBinds | cli/docker.go:692-717 | The loop appends the binds whose remapped mountpoint is not taken yet; every added mount has the path of some bind as its source and is read-only if and only if that bind's options say so |
| GpuMounts.FirstClaimantWins | cli/docker.go:704-716 | The added mounts are exactly the binds that are first to claim their mountpoint |
| GpuMounts.AllBindsAreServed | cli/docker.go:692-717 | Every bind's remapped mountpoint has an entry |
| AppendNew.AppendedAreFirstClaimants | xunix/gpu.go:93-104 | Append-if-new keeps the base in front and adds exactly the first claimants, in order |
| AppendNew.AppendedDistinct | xunix/gpu.go:93-104 | What is added is pairwise distinct and distinct from the base; distinct keys stay distinct |
| Remap.BeneathIsRemapped | cli/docker.go:695-703 | A clean path strictly beneath the host directory lands at the same clean place beneath the inner directory, with or without a trailing slash on the host directory |
| Remap.BeneathIsInjective | cli/docker.go:695-703 | On such paths the remap is injective |
| Remap.SpellingsAgreeIff | cli/docker.go:696-701 | For every clean absolute path that starts with the text of the host directory, the spellings of it with and without a trailing slash agree if and only if the path is beneath it, or joining the first component that follows to the inner directory gives the same as splicing it to the host directory |
| Remap.SpellingsAgreeIffBeneath | cli/docker.go:696-701 | So except for the host directory itself and names that go on with just one or two dots, they agree exactly on what is beneath |
| Remap.SpellingsAgreeOnHostIff | cli/docker.go:696-701 | On the host directory itself they agree exactly if the inner directory is, cleaned, the same |
| Remap.OthersAreLeftAlone | cli/docker.go:695-696 | A path that does not start with the host directory's text is left alone |
| Remap.SiblingsCollide | cli/docker.go:696-701 | A sibling that shares the prefix is mapped onto the place of a path beneath |
| ProcUnmount.TryUnmountProcGPUDrivers | xunix/gpu.go:273-304 | Each GPU mount under /proc is attempted as often as it is listed, deepest first and so before each of its proper ancestors, whatever fails; the drivers are the successful attempts in order |
| ProcUnmount.SuccessfulArePicked | xunix/gpu.go:290-299 | The drivers are exactly the attempts at the positions that succeed, in order |
| ProcUnmount.SortSlice | xunix/gpu.go:281-285 | Some permutation with more slashes first; the order of equals is left open |
| ProcUnmount.AncestorsAreShallower | xunix/gpu.go:283-284 | A proper ancestor has fewer slashes |
| ProcUnmount.DeepestFirstIsDescendantsFirst | xunix/gpu.go:280-301 | Ordering by slashes puts every mount before its proper ancestors |
| ProcUnmount.SelectedCounts | xunix/gpu.go:288-289 | Exactly the occurrences of GPU mounts under /proc are selected |
| Process.RunsKeepKillInv | background/process.go:54-199 | In every interleaving: fields are replaced together by the mutex holder, each waiter holds its own generation's flag, a delivered signal implies the flag, and a waiter that decided has obeyed it |
| Process.KillOutcomes | background/process.go:136-172 | In every interleaving, whatever isProcExited answers and whatever channel a value is in: it is ErrUserKilled only if kill ran on its sender's generation, and nothing else if kill's signal was delivered to it; any other value is what cmd.Wait returned to its sender; and it is from the channel's own waiter, or ErrUserKilled from an earlier generation |
| Process.RunsKeepMessages | background/process.go:145-157 | Every value sent or buffered is what its sender decided, and its sender is the channel's generation or an earlier one |
| Process.RunsOnlyAdd | background/process.go:138-166 | Kill flags only go from 0 to 1, waiters only move on, decided outcomes and sent values stay |
| Process.ReapedUnsignalledIsFinal | background/process.go:87-94 | Once the newest process was waited for without having been signalled, no Restart ever gets past kill |
| History.RunsAreRemembered | background/process.go:131-171 | A process was started, killed, signalled or waited for exactly if the steps of the run say so, and what cmd.Wait returned is what is remembered |
| History.ValuesTellWhatHappened | background/process.go:142-172 | In terms of the steps alone: a value is ErrUserKilled only after kill stored its sender's flag, nothing else after kill's signal was delivered, and otherwise what cmd.Wait returned |
| History.ChannelsConserve | background/process.go:46-157 | In every run, what was sent on a channel is what was received from it, in order, followed by what is still in it |
| History.RunsKeepCapacity | background/process.go:46-157 | In every run no channel holds more than its capacity of one value |
| Ownership.TimelyRunsOwnChannels | background/process.go:138-157 | In every run with timely exit answers each channel gets at most one value, from its own waiter; the send neither blocks nor panics; it is closed once and after the send, and only then is the generation's context cancelled |
| Ownership.AnswerIsSafeIffTimely | background/process.go:179-191 | At any answer "exited", all timely continuations keep the channels owned if and only if this answer is timely |
| Ownership.EarlyAnswerMisdelivers | background/process.go:148-215 | After an early answer there is always a continuation in which the old waiter's ErrUserKilled is what the new generation's channel receives |
| Ownership.EarlyAnswerTrace | background/process.go:85-215 | A concrete run in which the value of generation 0 lands in the channel of generation 1 |
| ProcExit.NotExitedIff | background/process.go:206-224 | A readable file means "not exited" exactly if it is the command, or the command followed by a '0', and the command has no '0' |
| ProcExit.ExitAnswers | background/process.go:206-224 | All answers: exited without a file or under another name, an error exactly for an unreadable file |
| ProcExit.RunningIsSeenIff | background/process.go:206-224 | A running process counts as running exactly if its name goes on with a '0' where the given one, which has none, ends |
| ProcExit.RunningLooksExited | background/process.go:179-191 | A process that runs under the very name it was started with is always reported to have exited |
| DockerdFlow.WatcherSparesKilledGenerations | cli/docker.go:305-313 | In every run of the watchers and the main flow, once the main flow's Restart got past kill the watcher is not fatal for the killed generation |
| WatcherVerdict.FailureIsNotMissed | cli/docker.go:280-312 | In every run, a first dockerd that fails without having been killed leaves the watcher fatal or not yet finished, never done |
| WatcherVerdict.NoFailureIsMissed | cli/docker.go:280-373 | In every run with timely exit answers, the watcher is done with a dockerd, first or replacement, only if that has not failed by itself, or the second goroutine ends envbox |
| DockerdFlow.WatcherRestartNeverSucceeds | cli/docker.go:286-303 | In every run, the watcher never gets back from a successful restart; it restarts only the newest process, after that has been waited for |
| DockerdFlow.AtMostOneReplacement | cli/docker.go:353-374 | In every run dockerd is replaced at most once, by the main flow |
| DockerdFlow.FlowRunsKeepInv | cli/docker.go:257-377 | What every step of the flow keeps: who can hold the mutex where, which generations have exited by themselves, and what the second goroutine waits for |
| DockerdRuns.WatcherJudges | cli/docker.go:305-313 | Runs from the beginning: an exit error of dockerd ends envbox with "dockerd exited", and a clean exit leaves the watcher done |
| DockerdRuns.LateWatcherWaitsForReplacement | cli/docker.go:279-280 | A run from the beginning in which a watcher that is slow to ask waits for the replacement |
| DockerdRuns.WatcherRestartFails | cli/docker.go:286-300 | A run from the beginning in which the watcher restarts dockerd for lack of space and ends with "restart dockerd" |
| SecondWatcher.SecondFatalOnlyAfterExit | cli/docker.go:368-373 | In every run with timely exit answers, the second goroutine is fatal only after the restarted dockerd has exited |
| SecondWatcher.SecondIsSafeIffTimely | cli/docker.go:364-373 | At any answer "exited", that holds in all timely continuations if and only if this answer is timely |
| SecondWatcher.EarlyAnswerIsFatal | cli/docker.go:364-373 | After an early answer there is always a continuation in which it is fatal over a replacement that runs and was never killed |
| DockerdRuns.LiveReplacementCanBeFatal | cli/docker.go:346-373 | Such a run from the beginning |
| LimitWriter.PrefixSuffixWriter.Write | xio/limitwriter.go:36-60 | The stream grows by the chunk, the writer's invariant is kept, and the full length is reported |
| LimitWriter.PrefixSuffixWriter.Flush | xio/limitwriter.go:26-34 | The sink holds the whole stream if it has at most 2N bytes, else its first N bytes, the message and its last N bytes |
| LimitWriter.PrefixSuffixWriter.WritePrefix | xio/limitwriter.go:100-113 | As much as fits the prefix goes to the sink |
| LimitWriter.PrefixSuffixWriter.FillSuffix | xio/limitwriter.go:62-74 | The ring is filled up, and what is returned is the rest |
| LimitWriter.PrefixSuffixWriter.OverwriteSuffix | xio/limitwriter.go:76-85 | All the bytes join the stream and the writer's invariant is kept |
| LimitWriter.PrefixSuffixWriter.TurnRing | xio/limitwriter.go:76-85 | After any number of turns the ring holds the last N bytes, oldest first from the offset |
| LimitWriter.PrefixSuffixWriter.WriteSkipMessageOnce | xio/limitwriter.go:89-98 | The message is in the sink once |
| LimitWriter.PrefixSuffixWriter.RingBetweenWrites | xio/limitwriter.go:20-23 | Between writes the ring holds the last min(N, total - prefix) bytes, its offset is below N and 0 until it is full, and the message is out exactly if the total exceeds 2N |
| LimitWriter.PrefixSuffixWriter.SinkBeforeFlush | xio/limitwriter.go:36-98 | Before a Flush the sink holds the first min(N, total) bytes, and the message exactly if the total exceeds 2N |
| LimitWriter.RingOverwrite | xio/limitwriter.go:76-85 | Overwriting in place and moving the offset drops the oldest bytes and appends the new ones |
| LimitWriter.CaptureAndFlush | background/process.go:114-143 | Any chunks and one Flush: the output depends on the concatenation alone |
| LimitWriter.CaptureWithoutFlush | dockerutil/exec.go:60-95 | Any chunks and no Flush: prefix and message only |
| LimitWriter.UnflushedIsCompleteIff | dockerutil/exec.go:60-95 | Without a Flush the output equals the input if and only if the input fits the prefix or continues with just the message |
| LimitWriter.LoopTerminatesIff | xio/limitwriter.go:76-85 | The overwrite loop consumes its input if and only if N is positive |
| MountList.ParseMounts | cli/docker.go:953-977 | The mounts of the value, or an error exactly if it is not empty and some entry has neither two nor three fields |
| MountList.GenerateBindMounts | dockerutil/container.go:196-207 | One bind per mount, in order, with `:ro` exactly for the read-only ones |
| MountList.ParsePrint | cli/docker.go:951-977 | Printing mounts without separators, joining and parsing gives them back |
| MountList.FieldsMean | cli/docker.go:962-973 | Two or three fields are source, mountpoint and mode, and the mount is read-only exactly if there is a mode and it is "ro" |
| MountList.ParsePrintIff | cli/docker.go:951-977 | Exactly the lists of mounts without separators come back |
| MountList.ParsePrintParse | cli/docker.go:951-977 | For every accepted value parsing, printing and parsing again is parsing |
| CpuQuota.CGroupSelfIff | xunix/sys.go:138-161 | The own cgroup is read exactly from a file whose first line has three fields, and is the third of them |
| CpuQuota.ParseV2Iff | xunix/sys.go:80-105 | cpu.max is accepted exactly if it is two space-free fields up to outer white space, a number or `max` (read as -1) and a number |
| CpuQuota.RemountedReaderSeesQuota | xunix/sys.go:66-78 | Where the path of the own cgroup does not exist, the reader takes the root file and sees the quota written there; where it exists, that file decides |
| CpuQuota.HostFS.SetContainerQuota | dockerutil/container.go:145-194 | The files of the given cgroup version are written, period before quota and nothing after a failure; success exactly if the version is known and its files can be written; an unknown version is an error and writes nothing; what was written reads back |
| CpuQuota.HostFS.CopyQuota | cli/docker.go:783-799 | The outer quota is read and written for the inner container as far as its files can be written; a quota that cannot be read changes nothing |
| CpuQuota.CopyChangesOnly | cli/docker.go:783-799 | A copy changes no file but those of the inner container's quota, and none that cannot be written |
| CpuQuota.HalfACopy | dockerutil/container.go:183-191 | If only the v1 quota file cannot be written, the period is changed all the same |
| CpuQuota.MaxRoundTrip | xunix/sys.go:83-105 | Reading what was written for v2 gives the same quota and period for all 64-bit numbers, any negative quota as -1 |
| CpuQuota.V1RoundTrip | xunix/sys.go:120-135 | Reading what was written for v1 gives the same quota for all 64-bit numbers |
| CpuQuota.QuotaSurvivesIff | dockerutil/container.go:162-167 | A v2 quota survives writing and reading if and only if it is at least -1, and writing the normalised quota writes the same text |
| CpuQuota.CopyAgreesIff | cli/docker.go:783-799 | For whatever the reader accepts, the inner container reads the same quota unless it is a v2 quota below -1 |
| CpuQuota.CopyIsIdempotent | cli/docker.go:783-799 | Copying twice is copying once, for all files, ids and unwritable files, even if a written file is one of those read |
| CpuQuota.V1WithSpaces | xunix/sys.go:120-130 | White space around the two numbers is ignored |
| CpuQuota.KernelV1IsRead | xunix/sys.go:22-25 | Without a v2 quota, the two v1 files with the newlines of the kernel decide |
| CpuQuota.WrittenMax | dockerutil/container.go:156-169 | The v2 file of a container |
| CpuQuota.WrittenV1 | dockerutil/container.go:177-191 | The two v1 files of a container |
| CpuQuota.ContainersAreApart | dockerutil/container.go:156-191 | Different containers have different files |
| CpuQuota.ScopeReadsWritten | xunix/sys.go:66-67 | For a process in the container's own scope, the path of its own cgroup is the file that is written |
| CpuQuota.ScopeSeesQuota | xunix/sys.go:59-106 | So it reads the quota that was set |
| CpuQuota.V1WriteIsUnseen | xunix/sys.go:59-106 | Writing a v1 file never changes what the v2 reader sees |
| Subsystem.DefaultContainerEnvs | cli/docker.go:981-1017 | Two variables: the token, and the tidy subsystem list for the first matching entry of the environment |
| Subsystem.AgentSubsystem | cli/docker.go:990-1011 | The value is strictly sorted and as a set is the trimmed non-empty entries plus envbox |
| Subsystem.TidyUp | cli/docker.go:996-1005 | The trimmed non-empty pieces, each once |
| Subsystem.SubsystemIsTidy | cli/docker.go:996-1008 | No entry of the value is empty or untrimmed, and reading it gives the set back |
| Subsystem.SubsystemIsUnique | cli/docker.go:990-1008 | Two values agree if and only if their inputs have the same entries, so order, repetition and white space do not matter |
| Subsystem.SubsystemIsStable | cli/docker.go:990-1008 | Recomputing the value from itself changes nothing |
| Subsystem.NestedEnvboxAgrees | cli/docker.go:981-1016 | An envbox inside an envbox passes the same subsystems on |
| Subsystem.FirstWins | cli/docker.go:985-990 | The first matching entry of the environment counts |
| Subsystem.BeforeIff | cli/docker.go:1007 | The order of the list: at the first difference the smaller character, or the end of the text, comes first |
| Subsystem.SortSorts | cli/docker.go:1007 | Sorting distinct strings gives a strictly sorted list of the same strings |
| Subsystem.SortedListIsUnique | cli/docker.go:1007 | A set has only one strictly sorted list, so the sort leaves nothing open |
| Bridge.CidrIff | dockerutil/network.go:18-27 | Of the texts without a colon, accepted are exactly a canonically printed address, a slash, and digits of value at most 32 |
| Bridge.AddrIff | dockerutil/network.go:18-27 | An address text is accepted as an address exactly if it is its printed form |
| Bridge.DecodeEncode | dockerutil/network.go:35-45 | The byte decode and encode undo each other, both ways |
| Bridge.MaskIsMask32 | dockerutil/network.go:12-14 | The bytes of the mask are those of the 32-bit mask, for every length |
| Bridge.BridgeNumber | dockerutil/network.go:11-45 | As a 32-bit number the bridge is the network address plus one |
| Bridge.BridgeOfText | dockerutil/network.go:11-45 | The same from the text of any address and length |
| Bridge.LengthOfText | dockerutil/network.go:18-22 | A number with any leading zeros is read as a length exactly if it is at most 32 |
| Bridge.DefaultBridge | dockerutil/network.go:9-16 | The default "172.19.0.1/30" gives 172.19.0.1 with length 30 |
| Bridge.BridgePlace | dockerutil/network.go:11-45 | Up to length 31 the bridge lies inside the network, and it is the broadcast address exactly for length 31 |
| Bridge.HostBridgePlace | dockerutil/network.go:11-45 | For length 32 the bridge lies outside the network |
| Bridge.BridgeIsNotTheNetwork | dockerutil/network.go:11-45 | The bridge is never the network address |
| Bridge.SameBridgeIff | dockerutil/network.go:11-45 | Two addresses get the same bridge if and only if they are in one network: the host bits do not matter |
| PullImage.PullImage | dockerutil/image.go:65-124 | For all results and retry answers: the log of pulls, waits and prunes is a finished run by the loop's rules with at most eleven pulls, and nil is returned exactly if its last pull succeeded |
| PullImage.OnlyOneRun | dockerutil/image.go:87-124 | The rules leave nothing open: the answers determine the run |
| PullImage.RunsFollowTheRules | dockerutil/image.go:87-119 | Every event of a run may follow the one before it and has the answer due to it |
| PullImage.AtMostOnePrune | dockerutil/image.go:100-112 | There is at most one prune |
| PullImage.PruneIsLast | dockerutil/image.go:104-117 | A prune comes right after a no-space failure of a retry, and no pull follows it |
| PullImage.NoSpaceStops | dockerutil/image.go:106-117 | The first no-space failure of a retry is the last pull |
| PullImage.SuccessOrBadCertificateStops | dockerutil/image.go:87-98 | A success, or a certificate error on the first attempt, is the last event |
| PullImage.PullsNeedConsent | dockerutil/image.go:101-102 | Every pull but the first comes right after the retrier's consent, and a refusal is the last event |
| PullImage.NoSpacePrunes | dockerutil/image.go:104-117 | A run whose retry fails for lack of space ends with a prune |
| PullImage.SteadyFailures | dockerutil/image.go:101 | Failures that are retried (the first no bad certificate, the others not for lack of space) and a willing retrier give exactly eleven pulls |
| GoText.SplitJoin | cli/docker.go:958-962 | Splitting undoes joining for separator-free parts |
| GoText.AtoiItoa | xunix/sys.go:92-99 | Parsing a printed 64-bit number gives it back |
| GoText.CountIsNumberOfPlaces | xunix/gpu.go:283-284 | The number of slashes is the number of positions that hold one |
| GoText.AtoiIff | xunix/sys.go:92-99 | Accepted are exactly the texts of the 64-bit integers: a sign, leading zeros, and the printed digits |
| GoText.TrimAround | cli/docker.go:1000 | Trimming removes the white space around a text and nothing else |
| GoPath.CleanDropsDots | xunix/gpu.go:194 | Joined paths are cleaned by the rules of path/filepath: multiple slashes are one and "." elements go |
| GoPath.CleanDropsParent | xunix/gpu.go:194 | An inner ".." goes with the element before it |
| GoPath.CleanDropsRootParent | xunix/gpu.go:194 | A ".." at the root goes |
| GoPath.CleanKeepsLeadingParents | xunix/gpu.go:194 | Those at the start of a relative path stay |
| GoPath.DirOfJoin | xunix/gpu.go:219-241 | The directory of a name joined to a clean directory is that directory |
| GoPath.CleanIsClean | xunix/gpu.go:194-219 | Cleaning a path is idempotent |

## Left out

- LinkChain.RecursiveSymlinks: asks for a chain that never revisits a path, because the loop does not end otherwise; LinkChain.LoopTerminatesIff shows that the condition is exact.
- GpuMounts.UsrLibGPUs: asks the same of the chains of all matching libraries.
- LimitWriter.PrefixSuffixWriter.constructor: asks for N of at least 1, because the overwrite loop does not end for 0; LimitWriter.LoopTerminatesIff shows that the condition is exact.
- LimitWriter.PrefixSuffixWriter.Flush: the sink never fails (both users pass a bytes.Buffer); more than one Flush and a Write after a Flush are not described.
- Ownership.TimelyRunsOwnChannels: assumes that isProcExited says "exited" only after the waiter has evaluated `d.waitCh` for its send, which is weaker than "after it has sent"; without it the statement is false (Ownership.EarlyAnswerTrace).
- SecondWatcher.SecondFatalOnlyAfterExit: makes the same assumption, and is false without it (DockerdRuns.LiveReplacementCanBeFatal).
- DockerdFlow.FlowRunsKeepInv: the daemon arguments, the sysbox manager and the Docker client between the steps are not modelled, nor is what follows a failed container.
- ProcExit.RunningIsSeenIff: takes the contents of /proc/pid/cmdline to be the arguments, each followed by a NUL, as proc(5) says; a process that rewrites its own arguments is not modelled.
- Process.RunsKeepKillInv: the processes are a value that steps transform, not objects that share memory, because several goroutines change them; the mutex, the atomic flag and the channels are taken as sequentially consistent. That the waiter's cmd.Wait may return after the process was reaped is modelled; the order of reaping and /proc is not.
- ProcUnmount.SortSlice: selects the deepest mount again and again where sort.Slice moves elements within the slice; any correct sort by that key gives one of its results.
- Subsystem.AgentSubsystem: sorts by insertion; sort.Strings gives the same list by Subsystem.SortedListIsUnique.
- Bridge.CidrIff: reads dotted addresses only; texts with a colon, of which the code accepts those that map an IPv4 address, are not part of the model.
- CpuQuota.HostFS.WriteFile: a failed write leaves its file as it was.
- PullImage.PullImage: looks at errors only as far as the code does (a certificate text, a no-space text); encoding the credentials, which can fail before the first pull, is left out, and so is the wrapping of error texts.
- The Docker, netlink, HTTP, DRPC and Coder clients and the rest of `runDockerCVM`: calls into libraries.
- Time, tickers, contexts and backoff: choices of steps or answers.
- The regular expressions and the directory walk itself: parameters.
- Log scanning, build logs, os-release and passwd parsing, flags, devices, certificates and shell scripts: members that would only add easy statements.
