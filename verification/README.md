# Verified models of the stateful programs

The repository is a collection of small Unix programs. Most show one system call; eleven hold an algorithm with
state. This project models those eleven in Dafny and proves what each of them is for. System calls are small step
relations or parameters; nothing here runs the original programs. `dafny verify dfyconfig.toml` checks everything.

| files | program | result |
|---|---|---|
| `DirTree*.dfy` | `tlpi-dist/inotify/inotify_dtree.c` | the directory cache agrees with the tree over whole runs, exactly as long as no disruptive rename happens; the outcome does not depend on how the event stream is cut into reads, what a late second read can do is known exactly, and events that queue up are told apart by their cookies |
| `WorkQueue*.dfy` | `ALSP/cond_var.c` | the ring buffer is a FIFO queue under every interleaving, with no lost wake-up; consumers get what was read, in order, and the queue is worked off in a bounded number of steps |
| `MqNotify.dfy` | `tlpi-dist/pmsg/mq_notify_via_signal.c` | no message goes unnoticed, and the queue is emptied in a bounded number of steps |
| `ChildReaper.dfy` | `tlpi-dist/procexec/multi_SIGCHLD.c` | all children are reaped although signals coalesce, and every run ends |
| `FileWalk*.dfy` | `APUE/filenum.c` | the walk visits each object once, in pre-order, under the names of its branch, in one shared buffer |
| `Namespace*.dfy` | `tlpi-dist/namespaces/userns_overview.go` | the map is the ancestor closure, as a tree, displayed completely |
| `PollLoop.dfy` | `ALSP/io_poll_nb.c` | one pass serves every readable descriptor once while entries leave the table |
| `SessionTable.dfy` | `ALSP/epoll_timerfd.c` | sockets and timers stay paired and in step with the epoll interest set; exactly the expired and closed sessions leave, and data restarts a timer |
| `Environment.dfy` | `tlpi-dist/proc/setenv.c` | `setenv` is a map update, `unsetenv` a filter, in place |
| `Acl*.dfy` | `tlpi-dist/acl/acl_update.c` | the parser accepts exactly the documented spellings; applying a list is a map override, with the mask of the result |
| `PathSearch.dfy` | `tlpi-dist/procexec/execlp.c` | the pathnames tried and the errno returned |

`Options.dfy`, `StrChr.dfy` and `Tables.dfy` hold what several of them share.

## The directory cache

A path is the sequence of its components; the program compares and rewrites bytes, and `DirTreePaths` proves that
both views agree for all strings. `DirTreeState` gives every operation as a function on the abstract state: the map
from watch descriptors to paths, the root paths, and the kernel's part (the directories and the watches). A watch
belongs to a directory, so it moves with it. `DirTreeMonitor` is the program with its array of slots, its root list,
its event buffer and its read loop; each method is proved equal to its function, and `DirTreeLoop` has what every turn
of the loop keeps. `Synced` says that the cache, the
watches and the tree agree; `Accurate` is what a reader wants of the cache: one descriptor for each directory under a
live root, no other entry, and each descriptor is the kernel's watch on that very directory. `Synced` implies
`Accurate`, and a handled change keeps both or loses both. `Outcome` says what is independent of the agreement: the
live roots are those that were neither removed nor renamed, and the program exits exactly when a change takes the last
of them.

Handling each change before the next does not always keep the agreement. `Disruptive` names the three kinds of rename
that break it, each one visible before the call:

- a directory above a root is renamed: no event is sent, and the root's cached path is stale;
- a root is renamed into another monitored tree: the "moved to" event finds all its watches cached already, and the
  event for the root itself then removes them;
- an unmonitored directory is renamed onto an existing, empty, monitored one: line 845 finds the old directory's path
  still cached and does not watch the new one, and the old directory's deletion then clears the entry.

`DirTreeTheorems.ChangeKeepsSync` proves that the agreement is kept if and only if the change is none of these, and
`RunInSyncIff` proves the same for whole runs. `DirTreeExamples` has one small tree for each kind.

The two events of a rename are recognised as a pair only if the program sees them together. It waits two milliseconds
for the second one; if that read comes too late, the first event is handled alone. `HandlesTo` is the set of outcomes
that the event stream has then, `Monitor.DrainQueue` proves that the program always reaches one of them, and
`DirTreeLate` proves that every one of them keeps the agreement if and only if the change is neither disruptive nor a
rename within the trees onto an existing directory, which may then be missing from the cache.

`DirTreeHandler` says what the handler does with any event in any cache, by mask, cookie and descriptor, without the
functions of `DirTreeState`: when a pair is recognised, when a subtree is dropped, and that an overflow, an unknown
descriptor and a failing `inotify_rm_watch` all end in an accurate cache. `DirTreeQueued` has several changes made before
their first event is read: where the handler needs no look at the tree they come to the same as one after the other, and
so does a rename out of the trees that is followed by another change with another cookie.

Assumptions about the kernel: directories change by mkdir, rmdir and rename, other files in any way; a rename queues "moved from",
"moved to", "move self" and then the events of a replaced directory; only an overflow event has no descriptor; roots
are given without trailing slash, are distinct and are not nested; paths stay below PATH_MAX, as the program itself
requires (lines 43-45). An IN_IGNORED event is a no-op and those that removed watches queue at the end of the stream
change nothing (`IgnoredTail`), so the model's `inotify_rm_watch` does not queue them. The order of `nftw` is
arbitrary: it is the order of `Kernel.listing`.

## Where the code differs from its documentation or from what one expects

- `inotify_dtree.c` line 1196 tests `errno != -1` where `nr != -1` is meant, so an interrupted second read shortens
  `numRead` by one byte. The model keeps this; `ProcessInotifyEvents` proves that it does no harm.
- `inotify_dtree.c` line 1120 lets `-b` ask for more bytes than the buffer has, or for fewer than an event needs, in
  which case the read fails and the program exits; the model takes sizes from the largest event to the whole buffer.
- `filenum.c` line 93 reports an unreadable directory under its pathname with a slash appended, and line 25 prints a
  total of 1 for a tree in which nothing can be examined.
- `setenv.c` line 73 returns -1 for lack of memory after the old definition has been removed.
- `epoll_timerfd.c`: `del_ev` called with a timer instead of a socket would break the table (`Sessions.DelEv` proves
  that exactly this case does); `get_epollevent` never does so.

## Model

| member | source | states |
|---|---|---|
| DirTreePaths.ByteTestIsComponentPrefix | tlpi-dist/inotify/inotify_dtree.c:639-641 | for all strings, "strncmp over len, then '/' or end" holds exactly for the directory itself and what lies below it by whole components |
| DirTreePaths.RewriteIsComponentRewrite | tlpi-dist/inotify/inotify_dtree.c:642-645 | replacing the matched bytes replaces exactly the matched components |
| DirTreePaths.SplitJoin | tlpi-dist/inotify/inotify_dtree.c:811-812 | component paths survive being written as text and taken apart again |
| DirTreePaths.JoinSplit | tlpi-dist/inotify/inotify_dtree.c:811-812 | every text is the join of its components |
| DirTreeState.Next | tlpi-dist/inotify/inotify_dtree.c:768-1082 | an event is left hanging exactly when it is a last, first-tried "moved from" of a known directory, and then nothing changed; otherwise at least one event is consumed |
| DirTreeSync.SyncedIsAccurate | tlpi-dist/inotify/inotify_dtree.c:18-25 | agreement means one descriptor per monitored directory, no other entry, and the right descriptor |
| DirTreeSync.WatchListAdds | tlpi-dist/inotify/inotify_dtree.c:521-600 | watching a subtree adds watches and entries for exactly its directories and keeps cache and kernel inverse to each other, also where watches existed |
| DirTreeSync.ReinitializeSyncs | tlpi-dist/inotify/inotify_dtree.c:719-759 | a rebuild gives an accurate cache from any earlier cache and watches, even for nested roots |
| DirTreeSteps.MkdirSyncs | tlpi-dist/inotify/inotify_dtree.c:804-846 | after a mkdir and its event the agreement holds again, with the same live roots and the program running |
| DirTreeSteps.RmdirSyncs | tlpi-dist/inotify/inotify_dtree.c:848-860 | after an rmdir and its events the agreement holds again; a removed root, and no other, is dropped, and the program exits exactly when it was the last |
| DirTreeSteps.FileSyncs | tlpi-dist/inotify/inotify_dtree.c:804-863 | events about files that are no directories leave the cache, the roots and the agreement alone |
| DirTreeMoves.RenameWithin | tlpi-dist/inotify/inotify_dtree.c:946-979 | a rename within the trees, also onto an empty directory, keeps the descriptors, moves exactly the subtree and keeps the agreement and the roots |
| DirTreeMoves.RenameOut | tlpi-dist/inotify/inotify_dtree.c:981-1005 | after a rename out of the trees no inotify_rm_watch fails, the program goes on, only a replaced root is dropped, and the agreement holds, so entries and watches of the subtree are gone |
| DirTreeMoves.RenameRootOut | tlpi-dist/inotify/inotify_dtree.c:1047-1073 | a renamed root is dropped with its whole tree, and a replaced one too; the agreement holds for the other roots, and without any the program exits |
| DirTreeMoves.RenameIn | tlpi-dist/inotify/inotify_dtree.c:804-846 | a directory renamed into a tree, to a new name, is watched with all below it, and the roots stay |
| DirTreeBreaks.AboveRootBreaks | tlpi-dist/inotify/inotify_dtree.c:1047-1057 | after renaming a directory above a root the program goes on and its cache names a root path that does not exist |
| DirTreeBreaks.RootIntoTreeBreaks | tlpi-dist/inotify/inotify_dtree.c:1047-1073 | after renaming a root into a monitored tree the program goes on without that root, and its cache lacks the directory |
| DirTreeBreaks.OntoBreaks | tlpi-dist/inotify/inotify_dtree.c:817-860 | after renaming an unmonitored directory onto a monitored one the program goes on with all its roots, and its cache lacks the directory |
| DirTreeTheorems.RenameKeepsSync | tlpi-dist/inotify/inotify_dtree.c:768-1082 | every legal rename drops exactly the roots it renames or replaces, ends the program exactly with the last root, and otherwise leaves it in agreement, and accurate, if and only if it is not one of those three |
| DirTreeTheorems.ChangeKeepsSync | tlpi-dist/inotify/inotify_dtree.c:768-1082 | every legal change, handled before the next, keeps the agreement, and equally the accuracy of the cache, if and only if it is not disruptive; it drops exactly the roots it takes away and ends the program exactly with the last one, which a disruptive change never does |
| DirTreeTheorems.RunKeepsSync | tlpi-dist/inotify/inotify_dtree.c:18-25 | in a run without disruptive changes every state is in agreement and accurate for the directories of the last change and for the first roots less those removed or renamed; the program has exited exactly when none is left |
| DirTreeTheorems.RunInSyncIff | tlpi-dist/inotify/inotify_dtree.c:18-25 | the agreement, and equally the accuracy of the cache, holds throughout a run if and only if no change in it is disruptive; up to the first disruption every change has its outcome for roots and exit |
| DirTreeTheorems.RebuildSyncs | tlpi-dist/inotify/inotify_dtree.c:719-759 | the first build and every rebuild establish the agreement |
| DirTreeExamples.MoveOntoExample | tlpi-dist/inotify/inotify_dtree.c:845-846 | x renamed onto r/d below root r: the cache lacks r/d |
| DirTreeExamples.AboveRootExample | tlpi-dist/inotify/inotify_dtree.c:1047-1057 | a renamed to b above root a/r: the cache still names a/r |
| DirTreeExamples.RootIntoTreeExample | tlpi-dist/inotify/inotify_dtree.c:1047-1073 | root q renamed to r/q below root r: the cache lacks r/q |
| DirTreeExamples.UnpairedExample | tlpi-dist/inotify/inotify_dtree.c:907-915 | r/a renamed onto r/b: handled as a pair the cache names r/b, handled separately it does not |
| DirTreeExamples.OutThenInExample | tlpi-dist/inotify/inotify_dtree.c:946-1005 | r/a leaves and x enters as r/b before an event is read: the cache is right afterwards |
| DirTreeTheorems.IgnoredTail | tlpi-dist/inotify/inotify_dtree.c:780-784 | IN_IGNORED events at the end of the stream have no effect |
| DirTreeUnpaired.SamePathsIff | tlpi-dist/inotify/inotify_dtree.c:907-915 | a rename whose events are handled separately leaves the same set of cached paths as the recognised pair, if and only if it did not replace a directory |
| DirTreeSlots.RewriteView | tlpi-dist/inotify/inotify_dtree.c:623-651 | rewriting the slots rewrites exactly the subtree; descriptors and unused slots stay as they are |
| DirTreeSlots.RewriteKeepsDistinct | tlpi-dist/inotify/inotify_dtree.c:623-651 | when nothing is cached under the new path, distinct paths stay distinct |
| DirTreeMonitor.Monitor.FindWatch | tlpi-dist/inotify/inotify_dtree.c:233-243 | finds the slot of a cached descriptor, -1 exactly for the others |
| DirTreeMonitor.Monitor.FindEmptyCacheSlot | tlpi-dist/inotify/inotify_dtree.c:291-314 | gives an unused slot, growing the array without changing what it holds |
| DirTreeMonitor.Monitor.AddWatchToCache | tlpi-dist/inotify/inotify_dtree.c:318-329 | adds exactly one entry |
| DirTreeMonitor.Monitor.PathnameInCache | tlpi-dist/inotify/inotify_dtree.c:334-352 | true exactly when the path is cached |
| DirTreeMonitor.Monitor.ZapRootDirPath | tlpi-dist/inotify/inotify_dtree.c:463-505 | drops the first root with the path, and stops the program exactly when none is left |
| DirTreeMonitor.Monitor.TraverseTree | tlpi-dist/inotify/inotify_dtree.c:521-575 | one directory is watched and cached unless its descriptor is cached |
| DirTreeMonitor.Monitor.WatchSubtree | tlpi-dist/inotify/inotify_dtree.c:582-614 | all directories at or below the path, in walk order |
| DirTreeMonitor.Monitor.RewriteCachedPaths | tlpi-dist/inotify/inotify_dtree.c:623-651 | the loop over the slots refines the component rewrite of the cache |
| DirTreeMonitor.Monitor.ZapSubtree | tlpi-dist/inotify/inotify_dtree.c:657-709 | empties exactly the subtree, returns its size, or -1 exactly when a watch is unknown to the kernel, also when the argument is a string in the cache |
| DirTreeMonitor.Monitor.Reinitialize | tlpi-dist/inotify/inotify_dtree.c:719-759 | refines the rebuild and forgets the queued events |
| DirTreeHandler.HandlerMeans | tlpi-dist/inotify/inotify_dtree.c:768-1082 | for every cache and stream: a "moved from" takes the next event along exactly if it is a "moved to" with the same cookie; otherwise nothing at or below the source stays cached and nothing else changes; an overflow, an unknown descriptor and a failed removal rebuild an accurate cache for the live roots; every other mask does what its branch says |
| DirTreeMonitor.Monitor.ProcessNextInotifyEvent | tlpi-dist/inotify/inotify_dtree.c:768-1082 | the handler on slots and byte counts has that meaning, returns the bytes consumed, and forgets the queue exactly when it rebuilds |
| DirTreeQueued.BatchIsRun | tlpi-dist/inotify/inotify_dtree.c:1095-1212 | an rmdir, changes of other files and renames within the trees, in any number, and then one change of any kind, all made before the first event is read, come to the same as each handled before the next |
| DirTreeQueued.OutThen | tlpi-dist/inotify/inotify_dtree.c:981-1005 | a rename out of the trees and another change, both before the first event is read and with different cookies, come to the same as one after the other |
| DirTreeQueued.OutThenIn | tlpi-dist/inotify/inotify_dtree.c:946-1005 | a directory that leaves and another that enters before an event is read are not taken for a pair, and the agreement holds |
| DirTreeMonitor.Monitor.ProcessInotifyEvents | tlpi-dist/inotify/inotify_dtree.c:1095-1212 | ends; the events taken are a prefix of those queued, in every run; calls the handler at most once per event and at most once more for a "moved from" that waits for its partner; a pass that rebuilt leaves an accurate cache and nothing queued; whatever the events still queued can lead to is an outcome of the whole stream, each event seen with or without the next; with a prompt second read keeps the outcome of the whole stream, however reads cut it and although an interrupted read shortens numRead |
| DirTreeMonitor.Monitor.DrainQueue | tlpi-dist/inotify/inotify_dtree.c:1137-1210 | the final state is that of the whole stream seen at once, for any cutting into buffers; with late second reads it is an outcome of the stream in which events may miss the next one |
| DirTreeMain.ChangeAndHandle | tlpi-dist/inotify/inotify_dtree.c:1095-1212 | the program on slots and buffers is in agreement and accurate after a change if and only if the change was not disruptive, with the live roots and the exit that the change calls for; with late second reads the same, except that a rename onto a directory of the trees may leave that directory out of the cache |
| DirTreeLate.WithinLeadsTo | tlpi-dist/inotify/inotify_dtree.c:907-1005 | a rename within the trees has exactly two outcomes: its events handled as a pair, or each by itself |
| DirTreeLate.LateKeepsSync | tlpi-dist/inotify/inotify_dtree.c:1137-1210 | however late the reads, a change has its outcome for roots and exit and keeps the agreement if and only if it is not disruptive, except for a rename onto a directory of the trees |
| DirTreeLate.LateSyncIff | tlpi-dist/inotify/inotify_dtree.c:907-922 | all outcomes of a change keep the agreement if and only if it is neither disruptive nor a rename within the trees onto an existing directory |
| DirTreeLate.LateRunKeepsSync | tlpi-dist/inotify/inotify_dtree.c:907-922 | in whole runs without such changes late reads do no harm: agreement, roots and exit are those of prompt reads |
| WorkQueue.PushOne | ALSP/cond_var.c:115-125 | one item is appended to the queue contents, wrapping included |
| WorkQueue.Pop | ALSP/cond_var.c:134-139 | the oldest item is taken off, also when idx rests at MAX_ITEMS |
| WorkQueue.PushTakes | ALSP/cond_var.c:115-127 | a push appends the first min(cnt, free space) items in order |
| WorkQueue.Queue.PushItem | ALSP/cond_var.c:111-128 | the loop in the array refines the push and returns how many items were taken |
| WorkQueue.Queue.PopItem | ALSP/cond_var.c:130-151 | the pop in the array refines the pop of the queue |
| WorkQueueThreads.StepInv | ALSP/cond_var.c:66-151 | every step of producer or consumer keeps mutual exclusion, order, counts and the wake-up property |
| WorkQueueThreads.RunInv | ALSP/cond_var.c:66-151 | in every interleaving, with any number of consumers: pops followed by contents are the accepted items; each push takes what fits; a consumer waiting at a non-empty queue means the producer is yet to broadcast |
| WorkQueueThreads.RunAccepts | ALSP/cond_var.c:66-151 | in every run the items accepted are those of the lines read, each line once, in order, as far as there was room when its lock was taken, and the pops are their beginning |
| WorkQueueThreads.NeverStuck | ALSP/cond_var.c:93-149 | while the queue is non-empty and there is a consumer, some thread can move without new input or spurious wake-up |
| WorkQueueThreads.QueueIsEmptied | ALSP/cond_var.c:66-151 | from any reachable state, in every interleaving without new input and spurious wake-ups, the queue is empty after a number of steps bounded by the items queued, the rest of the producer's line and the number of consumers |
| WorkQueueThreads.CanBeEmptied | ALSP/cond_var.c:93-149 | with a consumer, the threads alone can empty the queue within that bound |
| MqNotify.StepInv | tlpi-dist/pmsg/mq_notify_via_signal.c:83-108 | every step keeps exactly one token among registration, pending signal, flag and program, and conserves messages |
| MqNotify.NothingUnnoticed | tlpi-dist/pmsg/mq_notify_via_signal.c:29-108 | in every run, a sleep with a non-empty queue has the flag set or the signal pending, and mq_notify is never called while registered |
| MqNotify.QueueIsEmptied | tlpi-dist/pmsg/mq_notify_via_signal.c:83-108 | from any reachable state, in every interleaving without new messages, the queue is empty after at most its length and seven steps, and two more for each sleep that ends before its signal is delivered |
| MqNotify.CanBeEmptied | tlpi-dist/pmsg/mq_notify_via_signal.c:83-108 | from every reachable state some run without new messages empties the queue in at most its length and seven steps |
| ChildReaper.StepInv | tlpi-dist/procexec/multi_SIGCHLD.c:43-113 | every step keeps the counter equal to unforked, running and unreaped children, and dead children on the way to being reaped |
| ChildReaper.RunInv | tlpi-dist/procexec/multi_SIGCHLD.c:72-113 | the parent never blocks unless a child runs or the signal is pending, leaves only when all are reaped, and has caught the signal between once and once per child |
| ChildReaper.RunEnds | tlpi-dist/procexec/multi_SIGCHLD.c:90-113 | no run exceeds 7 n + 2 steps, and one that cannot go on has ended in the exit |
| FileWalk.CallsAreBranches | APUE/filenum.c:67-110 | a call is made if and only if it reports the object at the end of a branch of readable directories, under the names along the branch and with the flag of that object |
| FileWalkOrder.DirectoriesFirst | APUE/filenum.c:78-104 | an object is reported before everything below it |
| FileWalkOrder.EntriesInOrder | APUE/filenum.c:95-105 | in every directory read, an entry and all below it are reported before an entry that readdir gives later |
| FileWalkOrder.UpToStops | APUE/filenum.c:78-104 | the calls made are those up to and including the first that does not return 0, whose value is returned |
| FileWalk.CallsDistinct | APUE/filenum.c:67-110 | no pathname is reported twice: each object is visited exactly once |
| FileWalk.TotalCalls | APUE/filenum.c:112-144 | the counters add up to the number of objects that lstat can examine |
| FileWalkBuffer.Walker.AppendSlash | APUE/filenum.c:82-90 | doubling once makes room for the slash, any name and the terminator |
| FileWalkBuffer.Walker.MyFunc | APUE/filenum.c:112-144 | each call is counted under its own heading |
| FileWalkBuffer.Walker.DoPath | APUE/filenum.c:67-110 | for every finite tree and callback: the calls are the pre-order list up to the first non-zero return, that return is the result, directories come first and nothing below an object refused by the callback is looked at, the buffer is never overrun and still starts with the caller's pathname |
| FileWalkBuffer.Walker.DoEntries | APUE/filenum.c:95-105 | the readdir loop does the same for the entries of one directory, without "." and ".." |
| FileWalkBuffer.Walker.MyFtw | APUE/filenum.c:51-65 | the walk from a pathname of any length, with the same order and the same stop |
| FileWalkBuffer.Walker.CountAll | APUE/filenum.c:21-25 | the printed total is the number of examinable objects, or 1 if there is none |
| Namespaces.ClosedUpward | tlpi-dist/namespaces/userns_overview.go:67-133 | with an entry, all its ancestors are in the map |
| Namespaces.LinkKeepsTree | tlpi-dist/namespaces/userns_overview.go:118-132 | giving a namespace to its parent keeps every entry listed once, by its own parent only |
| Namespaces.VisitsSubtree | tlpi-dist/namespaces/userns_overview.go:176-217 | the display from a namespace shows exactly what lies below it, without repetition |
| Namespaces.DisplayIsComplete | tlpi-dist/namespaces/userns_overview.go:237-240 | the display from the initial namespace shows every entry exactly once |
| NamespaceOrder.AncestorsFirst | tlpi-dist/namespaces/userns_overview.go:176-217 | a namespace is displayed before every namespace below it |
| NamespaceOrder.ChildrenInOrder | tlpi-dist/namespaces/userns_overview.go:212-216 | all below one child is displayed before all below a later child |
| NamespaceOverview.FoundMeans | tlpi-dist/namespaces/userns_overview.go:229-235 | found are exactly the namespaces of the processes and those above them |
| NamespaceOverview.PidsInOrder | tlpi-dist/namespaces/userns_overview.go:135-139 | the processes of a namespace stand in the order in which they were met |
| NamespaceOverview.PidListedOnce | tlpi-dist/namespaces/userns_overview.go:135-139 | each process is listed once, under its own namespace |
| NamespaceOverview.Overview.AddNamespace | tlpi-dist/namespaces/userns_overview.go:67-142 | adds exactly the ancestors of the namespace, keeps the tree although entries are made before their parents, and adds the process to this entry only |
| NamespaceOverview.Overview.ProcessAll | tlpi-dist/namespaces/userns_overview.go:229-235 | the map is the ancestor closure of the namespaces of all processes, each with its own processes in order |
| NamespaceOverview.Overview.DisplayNamespaceTree | tlpi-dist/namespaces/userns_overview.go:176-217 | ends, and shows the subtree in pre-order |
| NamespaceOverview.Overview.DisplayAll | tlpi-dist/namespaces/userns_overview.go:219-241 | every namespace found is displayed once, and no other |
| PollLoop.PassServes | ALSP/io_poll_nb.c:121-152 | the loop with swap-removal and early exit serves every readable descriptor exactly once and removes exactly the closed sessions |
| PollLoop.Server.AddSocket | ALSP/io_poll_nb.c:158-171 | appends the descriptor, or refuses exactly when the table is full |
| PollLoop.Server.DelSocket | ALSP/io_poll_nb.c:173-196 | replaces the entry by the last one, or reports that there is none |
| PollLoop.Server.Serve | ALSP/io_poll_nb.c:121-152 | one pass in the array: every readable descriptor once, distinct descriptors, the listener still in slot 0, only closed sessions gone |
| SessionTable.Sessions.FindBySocketFd | ALSP/epoll_timerfd.c:294-312 | finds the session of a socket, exactly when there is one |
| SessionTable.Sessions.FindByTimerFd | ALSP/epoll_timerfd.c:314-332 | finds the session of a timer, exactly when there is one |
| SessionTable.Sessions.NewTimerFd | ALSP/epoll_timerfd.c:230-253 | appends a session, growing the list when it is full |
| SessionTable.Sessions.DeleteByTimerFd | ALSP/epoll_timerfd.c:269-292 | removes exactly the session of the timer by swapping, or reports that there is none |
| SessionTable.Sessions.AddEv | ALSP/epoll_timerfd.c:173-202 | keeps sockets and timers paired and disjoint and the interest set equal to the table and the listener |
| SessionTable.Sessions.DelEv | ALSP/epoll_timerfd.c:204-228 | removes the session with its timer from table and interest set; the invariant is kept if and only if the argument is not a timer |
| SessionTable.GetEpollEvent | ALSP/epoll_timerfd.c:116-171 | of the sessions exactly those leave whose timer expired or whose peer closed in the batch, and one enters for each accepted connection; of those that stay exactly the ones that sent data had their timers restarted; any batch keeps the invariant, never ends the program through ADD_EV or DEL_EV, and always finds the session that sent data |
| Environment.MatchIsDefinition | tlpi-dist/proc/setenv.c:37-38 | for a name without '=', the byte test finds exactly the entries whose text before the first '=' is the name |
| Environment.LookupWithout | tlpi-dist/proc/setenv.c:37-50 | removing a name changes the lookup of that name only |
| Environment.WithoutKeeps | tlpi-dist/proc/setenv.c:37-50 | exactly the definitions of the name go, and all other entries stay in their order |
| Environment.SetIsMapUpdate | tlpi-dist/proc/setenv.c:66-80 | after setting, the name has one definition with the new value and every other lookup is unchanged |
| Environment.Process.RemoveAt | tlpi-dist/proc/setenv.c:43-44 | the shifting loop removes one pointer and keeps the others, in order, with the terminator |
| Environment.Process.Unsetenv | tlpi-dist/proc/setenv.c:23-53 | removes exactly the definitions of the name in place, keeping order, and ends; a null or empty name or one with '=' changes nothing |
| Environment.Process.Setenv | tlpi-dist/proc/setenv.c:55-81 | all outcomes: bad arguments, an existing name that may not be overwritten, success, and lack of memory after the removal |
| AclText.EntryRoundTrip | tlpi-dist/acl/acl_update.c:79-174 | parsing the canonical text of an entry gives the entry back |
| AclText.ListRoundTrip | tlpi-dist/acl/acl_update.c:180-209 | parsing the canonical text of a list gives the list back, if and only if it has at most MAX_ENTRIES entries |
| AclGrammar.ParsesSpellings | tlpi-dist/acl/acl_update.c:66-174 | a text parses to an entry if and only if it spells it: long or short tag, qualifier where the tag needs one, permission characters in any order and number exactly where they are required |
| AclGrammar.BadTag | tlpi-dist/acl/acl_update.c:86-128 | a missing colon and an unknown tag are refused |
| AclGrammar.BadPerms | tlpi-dist/acl/acl_update.c:98-170 | missing, unwanted and misspelt permissions are refused |
| AclGrammar.ParsesLists | tlpi-dist/acl/acl_update.c:180-209 | a text parses to a list if and only if it is spellings of its entries with commas between them, at most MAX_ENTRIES |
| AclParser.ParseEntrySpec | tlpi-dist/acl/acl_update.c:79-174 | the parser that cuts its buffer returns the entry that the text spells, or fails exactly if it spells none, and touches nothing outside its entry |
| AclParser.ParseAcl | tlpi-dist/acl/acl_update.c:180-209 | the same for the whole comma-separated text |
| AclApply.OverrideUpdates | tlpi-dist/acl/acl_update.c:401-443 | an identity named in the list has what its last entry gives or takes, one not named keeps what it had |
| AclApply.Acl.FindEntry | tlpi-dist/acl/acl_update.c:215-269 | finds the entry of an identity, a qualifier counting only for named users and groups |
| AclApply.Acl.CalcMask | tlpi-dist/acl/acl_update.c:432-434 | the mask is the union of what named users and all groups are granted |
| AclApply.Acl.Apply | tlpi-dist/acl/acl_update.c:401-443 | identities stay unique; each identity has what its last entry in the list gives or takes, or what it had, up to the entry at which acl_valid fails; after each entry before that the file is given the list so far, which is valid; a recalculated mask is the union of what the resulting list grants to named users and groups |
| PathSearch.PrefixesJoin | tlpi-dist/procexec/execlp.c:142-148 | the prefixes, put together with colons, are the path |
| PathSearch.JoinedPrefixes | tlpi-dist/procexec/execlp.c:142-165 | any list of prefixes without colons, empty ones included, is taken apart into itself |
| PathSearch.BuildPathname | tlpi-dist/procexec/execlp.c:150-160 | the pathname fits its allocation exactly and names the file in the directory of the prefix, the current one if the prefix is empty |
| PathSearch.CandidatesTried | tlpi-dist/procexec/execlp.c:139-182 | however PATH is written as prefixes between colons, the pathnames tried name the file in their directories, one each, in their order |
| PathSearch.SearchAlong | tlpi-dist/procexec/execlp.c:139-182 | the pathnames tried are the candidates in order, up to the first that runs |
| PathSearch.Execlp | tlpi-dist/procexec/execlp.c:111-196 | a filename with a slash is tried as it is and alone; an undefined or empty PATH means "./" before the filename; otherwise the directories of PATH in order; after failure of all attempts the error is EACCES if any attempt gave it, else the last one |

## Left out

- The interactive commands, logging and consistency check of `inotify_dtree.c`: output, and calls of operations that are modelled.
- Races between changes of the tree and the walk or the handler in `inotify_dtree.c`: the program admits them (lines 261-267); handled-before-the-next runs, batches whose handling needs no walk, rebuilds and the event stream are modelled.
- The bytes of `struct inotify_event`: events are values with their sizes, and the event buffer is a sequence of them; the shuffle to its start is the sequence itself.
- An unmounted file system in a run of `inotify_dtree.c`: its event is handled, but no change of the tree produces it.
- The in-place growth of `wlCache`, `fds_list.list` and the Go slices: they are sequences that are reassigned, so addresses into them are not modelled, except for the argument of `zapSubtree`.
- Failing system calls other than those named (realloc, timerfd_create, epoll_ctl on a new timer, fork, open): the programs exit or are left half-way.
- Reuse of a descriptor number within one epoll batch of `epoll_timerfd.c`: new numbers are taken to avoid the batch.
- The accept branch of `io_poll_nb.c` and its urgent-data branch, which is compiled only with a macro: no state beyond `AddSocket`.
- Foreign senders of SIGUSR1 in `mq_notify_via_signal.c`: one of them makes mq_notify fail while registered.
- AclApply.Acl.Apply: what acl_valid decides is a parameter, as it is part of libacl; acl_calc_mask is modelled after its documentation.
- FileWalkBuffer.Walker.DoPath: path_alloc is taken to give at least 256 bytes, the least PATH_MAX that POSIX allows; with fewer, doubling once would not be enough.
- Sorting and line-breaking of process lists in `userns_overview.go`, and all printed text: output only.
- The argument vector and the environment copy of `execlp.c`: variadic plumbing.
- `ALSP/cond_var_rts.c`, `ALSP/io_poll.c`, `ALSP/io_select.c`, `sp/select/serv.c`: close variants of modelled programs that would add only repeated members.
- The many programs that show one system call: no state to reason about.
