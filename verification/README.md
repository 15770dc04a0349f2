# A Dafny model of the CrystaX NDK's harder C and C++ code

The CrystaX NDK ships small libraries and host tools whose correctness rests on protocols, shared
buffers, tables updated in place and delicate string code. This project models the hardest of them
in Dafny and proves what they promise, for all inputs and all runs.

* **native_app_glue** (`GlueProtocol`, `GlueSafety`, `GlueTheorems`, `GlueWindow`, `GlueProgress`, `GlueSchedules`,
  `GlueExit`, `GlueRepeat`): the main thread and the app thread of an Android native activity, as a state machine
  with one transition per statement the other thread can observe. Safety holds for every interleaving; every
  call returns in every fair infinite run; and where a promise fails, the schedule and the exact condition are given.
* **GNU make's variable expansion** (`MakeExpand`, `MakeCycles`, `MakeBuffer`): a pure meaning of
  expansion, the theorem that a self-reference is reported exactly when there is a cycle of references,
  and the shared, reallocated output buffer proved to compute that meaning.
* **GNU make's directory cache** (`DirCache`, `DirAgreement`, `DirRuns`, `DirMarks`, `DirTable`): a lazily filled cache
  with a bounded number of open streams, proved to answer as the plain listing would.
* **GNU make's command splitting** (`ChopCommands`): the split at unescaped newlines and its inverse.
* **The CrystaX virtual file system** (`VfsPath`, `VfsAlgebra`, `VfsRelative`, `VfsNames`, `VfsBuffer`,
  `VfsCwd`, `VfsMount`, `VfsFd`): path normalisation in a C buffer, the algebra of paths, the current directory, the
  mount stack and the descriptor table. Paths are resolved as in the lexical part of section 4.13 of
  POSIX.1-2017 XBD, descriptors allocated as in section 2.14 of POSIX.1-2017 XSH.
* **strverscmp** (`Strverscmp`): a comparator shown to be a total order by an order-embedding into keys.
* **The trackball camera** (`VecMath`, `VecTurns`, `TapCamera`, `TapRuns`, `CameraObject`): quaternion algebra over
  exact numbers, the camera's gestures, and what a drag shows.
* **CPU lists** (`CpuList`): the sysfs list parser and the CPU count.

`CStrings` holds C strings as values. C pointers into a string are indices; a buffer is an array with a
terminator; `errno` and fatal errors are values of a result type.

## Where the code and what it promises differ

* `normalize` is used on relative paths as well, and `tests/device/crystax-test-libcrystax/jni/normalize.cpp`
  expects normal forms there. The code believes a wrong length after `.` then `..`, and `./../..` comes out
  as `.`. `VfsRelative.LostParent` gives the path and `VfsRelative.NormalizeRelative` says exactly for
  which paths the answer is right.
* `basename` copies a name of any length into a buffer for 255 characters. `VfsNames.BasenameFits` says exactly
  when it fits: not if the path is normalized already and its last part is longer. `VfsNames.LongName` gives a path.
* `find_driver` compares characters, not path components. `VfsMount.WrongDriver` gives a path for which it answers
  with a driver that does not cover it, and `VfsMount.FindDriverIff` says exactly when the answer is right.
* `chdir` tests one bit of the file type, which block devices and sockets have as well: `VfsCwd.DirBitMeans`.
* `free_fd` takes `fd_table_top` below zero when no slot is left in use, and no operation of the model repairs it.
  `VfsFd.CloseStandard` gives the calls, and `VfsFd.FdTable.FreeFd` states exactly when the top is right. `free_fd`
  and `resolve` let a descriptor equal to the table size through; the outcome of the model then says so.
* The header says that user code handling TERM_WINDOW still sees the window that goes. `GlueRepeat.RepeatBreaks`
  gives a schedule in which it sees none: the installed window is announced again, then taken away. Over two
  announcements the promise holds exactly if the first is not such a repetition: `GlueRepeat.TermPromiseIff`.
* A framework call can wait for ever if `android_main` returns before it is asked to. `GlueExit.StartIsStranded`
  gives the run, and `GlueExit.ExitedCallReturns` says exactly which calls still return: those whose wait condition
  holds already. `GlueProgress.CallReturns` therefore assumes that it does not return early.
* `dir_file_exists_p (dir, "")` is meant to ask whether a directory exists. It answers yes as well for one that
  does not, once a file in it has been marked impossible: `DirRuns.EmptyName`, `DirRuns.EmptyNameFails`.
* A mark on a file that does exist hides it until its entry is read, and for good if it had been read before the
  mark: `DirMarks.MarkLasts`, with one run for each side in `DirMarks.MarkedEarly` and `DirMarks.MarkedLate`.
* `TapCamera::Reset` does not reset the orientation that the next drag starts from: `TapCamera.ResetIsUndone`,
  with the exact condition on the calls in `TapRuns.DragGoesOn`.
* CPU lists longer than 64 characters are cut, possibly inside a number: `CpuList.CutParse`.

## Model

| member | source | states |
|---|---|---|
| `GlueSafety.StepInv` | sources/android/native_app_glue/android_native_app_glue.c:39-373 | every observable step of either thread keeps the invariant: mutual exclusion, no lost wake-up, lifetime of the struct, ownership of saved-state buffers, and what each wait is still owed |
| `GlueSafety.RunInv` | sources/android/native_app_glue/android_native_app_glue.c:208-279 | the invariant holds in every state of every run from start-up |
| `GlueTheorems.MutualExclusion` | sources/android/native_app_glue/android_native_app_glue.c:89-334 | the two threads are never both inside a critical section |
| `GlueTheorems.NoLostWakeUp` | sources/android/native_app_glue/android_native_app_glue.c:272-361 | in all six wait loops, a main thread asleep on a condition that holds is woken by a broadcast the app thread is about to make with the mutex held |
| `GlueTheorems.NoUseAfterFree` | sources/android/native_app_glue/android_native_app_glue.c:174-334 | once the struct is freed the app thread has no step left |
| `GlueTheorems.FreedOrHandedOnce` | sources/android/native_app_glue/android_native_app_glue.c:39-373 | no saved-state buffer is freed twice, handed to the framework twice, or both, and the current one is neither |
| `GlueTheorems.NoBufferLeaks` | sources/android/native_app_glue/android_native_app_glue.c:39-334 | when the struct is gone every buffer ever stored has been freed or handed over |
| `GlueTheorems.StoredSince` | sources/android/native_app_glue/android_native_app_glue.c:49-62 | a recorded buffer was stored by user code handling SAVE_STATE since the current onSaveInstanceState began |
| `GlueTheorems.ReturnedIsStored` | sources/android/native_app_glue/android_native_app_glue.c:351-373 | onSaveInstanceState returns NULL or the buffer stored while this very SAVE_STATE was handled, not freed, handed over once |
| `GlueWindow.RunHandOff` | sources/android/native_app_glue/android_native_app_glue.c:297-310 | over every run without a repeated announcement, window, pending window and window commands in flight fit together |
| `GlueWindow.WindowIsAnnounced` | sources/android/native_app_glue/android_native_app_glue.c:297-310 | when set_window(w) returns the window is w and no window command is in flight, and so it stays until the next such call |
| `GlueWindow.TermSeesOldWindow` | sources/android/native_app_glue/android_native_app_glue.h:227-233 | over every run without a repeated announcement, user code handling TERM_WINDOW sees the window being replaced; the exact condition is that of `GlueRepeat.TermPromiseIff` |
| `GlueWindow.WindowStaysNull` | sources/android/native_app_glue/android_native_app_glue.c:146-310 | from the return of a destroy callback to the next create callback there is no window and none on its way |
| `GlueRepeat.RepeatReturns` | sources/android/native_app_glue/android_native_app_glue.c:297-310 | announcing the installed window again can return with its two commands unserved |
| `GlueRepeat.RepeatBreaks` | sources/android/native_app_glue/android_native_app_glue.c:100-310 | from every quiet state with a window, a schedule of two announcements in which the handler of TERM_WINDOW finds no window |
| `GlueRepeat.TermPromiseIff` | sources/android/native_app_glue/android_native_app_glue.h:227-233 | in all schedules of two announcements, whatever the second, every handler of TERM_WINDOW sees the window it terminates, exactly if the first does not repeat the installed window |
| `GlueProgress.WaitIsOwed` | sources/android/native_app_glue/android_native_app_glue.c:272-361 | in every wait with a false condition the command that will make it true is in the pipe or held by the app thread, which can step |
| `GlueProgress.AppDecreases` | sources/android/native_app_glue/android_native_app_glue.c:49-237 | every app step lowers a measure on pipe and program counter |
| `GlueProgress.WaitEnds` | sources/android/native_app_glue/android_native_app_glue.c:272-361 | in every fair infinite run every wait ends |
| `GlueProgress.LockIsTaken` | sources/android/native_app_glue/android_native_app_glue.c:287-334 | in every fair infinite run a call gets the mutex |
| `GlueProgress.CallReturns` | sources/android/native_app_glue/android_native_app_glue.c:243-373 | in every fair infinite run every framework call returns, from any point of it |
| `GlueExit.ExitComesFirst` | sources/android/native_app_glue/android_native_app_glue.c:174-237 | from every start-up state there is a run after which the app thread has exited and the framework is free to call |
| `GlueExit.StartIsStranded` | sources/android/native_app_glue/android_native_app_glue.c:174-323 | and then a start callback returns in no schedule |
| `GlueExit.ExitedCallReturns` | sources/android/native_app_glue/android_native_app_glue.c:174-373 | a call made after the exit can return exactly if what it waits for holds when it is first tested |
| `GlueExit.ExitStrandsCalls` | sources/android/native_app_glue/android_native_app_glue.c:174-373 | in every infinite run, a call waiting after the exit for something that does not hold is in that wait at every later time |
| `MakeExpand.LookupFirst` | sources/host-tools/make-3.81/variable.c:340-357 | the definition found is that of the first set that has one |
| `MakeExpand.MatchCloseMeans` | sources/host-tools/make-3.81/expand.c:270-284 | the count of brackets stops at the one that closes a balanced text, and at no other |
| `MakeExpand.ScanDecomposes` | sources/host-tools/make-3.81/expand.c:229-372 | the reference read, its brackets and the rest make up the text; a name ends at the first closing bracket, a computed one at the matching one; only a dollar in unbalanced brackets drops the rest |
| `MakeExpand.ScanName` | sources/host-tools/make-3.81/expand.c:240-295 | every bracketed name without dollar or closing bracket is read whole |
| `MakeExpand.ScanComputed` | sources/host-tools/make-3.81/expand.c:260-289 | every balanced text with a dollar before its first closing bracket is read whole, to be expanded |
| `MakeExpand.FreeShrinks` | sources/host-tools/make-3.81/expand.c:98-155 | setting an expanding flag lowers the measure that ends the recursion |
| `MakeExpand.ExpandDoubled` | sources/host-tools/make-3.81/expand.c:213-240 | a text with every dollar doubled expands to the text, whatever is defined |
| `MakeCycles.RefsFail` | sources/host-tools/make-3.81/expand.c:196-408 | an expansion fails with a self-reference exactly if a reference it meets does |
| `MakeCycles.ValuesExtend` | sources/host-tools/make-3.81/expand.c:98-155 | with fewer variables in progress an expansion gives the same text, unless there was a cycle |
| `MakeCycles.NoCycle` | sources/host-tools/make-3.81/expand.c:98-155 | where no self-reference is reported no chain of references repeats or meets a variable in progress |
| `MakeCycles.FindCycle` | sources/host-tools/make-3.81/expand.c:98-155 | a reported self-reference is the end of a chain of references that met it before |
| `MakeCycles.SelfReferenceIffCycle` | sources/host-tools/make-3.81/expand.c:98-155 | a self-reference is reported exactly if some chain of references from the text visits a variable twice |
| `MakeCycles.RankedNeverCyclic` | sources/host-tools/make-3.81/expand.c:98-155 | if references can be ranked none is ever reported |
| `MakeBuffer.Expander.VariableBufferOutput` | sources/host-tools/make-3.81/expand.c:57-75 | the text is appended, what was there survives reallocation, and the zone behind it stays free |
| `MakeBuffer.Expander.InitializeVariableOutput` | sources/host-tools/make-3.81/expand.c:79-92 | the buffer is there and its contents start afresh |
| `MakeBuffer.Expander.CountBrackets` | sources/host-tools/make-3.81/expand.c:272-279 | the counting loop stops at the matching bracket |
| `MakeBuffer.Expander.VariableExpandString` | sources/host-tools/make-3.81/expand.c:196-408 | the buffer from the line offset on is the outer prefix, the pure expansion and a NUL; flags are restored; or the same fatal error |
| `MakeBuffer.Expander.ReferenceName` | sources/host-tools/make-3.81/expand.c:163-185 | what a reference emits is what the pure expansion of its name says |
| `MakeBuffer.Expander.RecursivelyExpand` | sources/host-tools/make-3.81/expand.c:98-155 | the value is the pure one; the flag is restored and the outer buffer untouched |
| `MakeBuffer.Expander.AllocatedVariableExpand` | sources/host-tools/make-3.81/expand.c:538-559 | a nested expansion gives the pure value and leaves the outer buffer as it was |
| `MakeBuffer.Expander.ExpandArgument` | sources/host-tools/make-3.81/expand.c:427-443 | as above, for a slice of the text |
| `MakeBuffer.Expander.AllocatedVariableAppend` | sources/host-tools/make-3.81/expand.c:513-533 | the appended value over all sets is the pure one; the outer buffer is untouched |
| `MakeBuffer.Expander.VariableAppend` | sources/host-tools/make-3.81/expand.c:474-510 | the buffer holds the parts of the outer sets first, separated by spaces |
| `DirAgreement.ReadUntilMeans` | sources/host-tools/make-3.81/dir.c:668-727 | reading moves entries from the stream to the table without loss, and finds the wanted name exactly if it was to come |
| `DirAgreement.LookGood` | sources/host-tools/make-3.81/dir.c:579-727 | a lookup answers listed and not flagged, and keeps the record in step with the listing |
| `DirRuns.FindGood` | sources/host-tools/make-3.81/dir.c:419-574 | finding a directory by name gives the one record of its inode, and none only if stat fails |
| `DirRuns.ApplyGood` | sources/host-tools/make-3.81/dir.c:419-960 | every operation keeps the invariant of the tables |
| `DirRuns.StreamsBounded` | sources/host-tools/make-3.81/dir.c:371-375 | after any operations open_directories is the number of live streams and below the maximum |
| `DirRuns.AnswersAgree` | sources/host-tools/make-3.81/dir.c:579-960 | after any operations that mark only absent files, existence answers are those of the listing and impossibility answers those of the marks |
| `DirRuns.AnswersExactly` | sources/host-tools/make-3.81/dir.c:579-727 | after any operations at all, an existence answer is wrong exactly for a listed file that file_impossible_p still reports |
| `DirRuns.MarkingHides` | sources/host-tools/make-3.81/dir.c:803-882 | after a mark the next query says no, so marking agrees with the listing exactly for absent files |
| `DirMarks.MarkLasts` | sources/host-tools/make-3.81/dir.c:579-882 | after any operations, a mark, and any operations that do not mark the file again, a query finds the file exactly if an entry of its name was still to come when it was marked and has been read since |
| `DirMarks.MarkStays` | sources/host-tools/make-3.81/dir.c:579-882 | a mark made after the entry was read hides the file for good |
| `DirMarks.MarkWearsOff` | sources/host-tools/make-3.81/dir.c:668-727 | once the directory has been read to its end, by whichever name, the file is found exactly if its entry was still to come when it was marked |
| `DirMarks.MarkedEarly` | sources/host-tools/make-3.81/dir.c:668-882 | a listed file marked before it is read is found again |
| `DirMarks.MarkedLate` | sources/host-tools/make-3.81/dir.c:668-882 | marked after, it is not |
| `DirRuns.EmptyName` | sources/host-tools/make-3.81/dir.c:617-624 | the empty name is there exactly if the directory can be opened or something in it was marked |
| `DirRuns.EmptyNameFails` | sources/host-tools/make-3.81/dir.c:617-624 | one mark turns the answer about a directory that stat does not find from no to yes |
| `DirRuns.ListAgrees` | sources/host-tools/make-3.81/dir.c:1098-1168 | globbing sees the whole listing however much had been read |
| `DirTable.DirectoryTable.ContentsFileExists` | sources/host-tools/make-3.81/dir.c:579-727 | the table grows by what is read, the stream closes at its end with the counter, and the answer is the one of `DirAgreement.LookGood` |
| `DirTable.DirectoryTable.FindDirectory` | sources/host-tools/make-3.81/dir.c:419-574 | a new name shares the record of its inode, and the stream that would reach the maximum is read to its end, as in `DirRuns.FindGood` |
| `DirTable.DirectoryTable.DirFileExists` | sources/host-tools/make-3.81/dir.c:733-738 | for an unmarked nonempty name the answer is the listing's; the invariant is kept |
| `DirTable.DirectoryTable.FileExists` | sources/host-tools/make-3.81/dir.c:742-797 | the same for a path, split at its last slash |
| `DirTable.DirectoryTable.FileImpossible` | sources/host-tools/make-3.81/dir.c:803-882 | exactly one mark is added, in a record of its own if the directory has none |
| `DirTable.DirectoryTable.FileImpossibleP` | sources/host-tools/make-3.81/dir.c:886-962 | for a file not in the listing the answer is whether it was marked |
| `DirTable.DirectoryTable.OpenDirstream` | sources/host-tools/make-3.81/dir.c:1098-1168 | the names are the listing but for marked ones, and there are none to get exactly if the directory cannot be opened and nothing in it was marked |
| `ChopCommands.ChopLines` | sources/host-tools/make-3.81/commands.c:289-319 | newlines kept in a line follow an odd run of backslashes, those that end a line an even one |
| `ChopCommands.JoinChop` | sources/host-tools/make-3.81/commands.c:285-326 | joining the lines gives the text back, with the final newline if it was missing |
| `ChopCommands.ChopJoin` | sources/host-tools/make-3.81/commands.c:285-326 | lines that could have come from a split come apart again as they were |
| `ChopCommands.LineFlags` | sources/host-tools/make-3.81/commands.c:335-356 | the flags are recurse, silent and no-error exactly as the leading characters and MAKE references say |
| `ChopCommands.FindEnd` | sources/host-tools/make-3.81/commands.c:291-307 | the pointer loop finds the first newline with an even run of backslashes before it |
| `ChopCommands.ChopText` | sources/host-tools/make-3.81/commands.c:285-326 | the grown array holds the lines of the split |
| `ChopCommands.AllFlags` | sources/host-tools/make-3.81/commands.c:331-360 | every line has its flags, and any_recurse is the disjunction of the recurse flags |
| `ChopCommands.ChopCommands` | sources/host-tools/make-3.81/commands.c:268-361 | lines, flags and any_recurse of the script; a script already chopped is left alone |
| `VfsPath.NormalizeAbsolute` | sources/crystax/vfs/futils.cpp:54-187 | on absolute paths the buffer algorithm names the stack that folding the components gives |
| `VfsPath.NormalizeNotLonger` | sources/crystax/vfs/futils.cpp:54-187 | the result is not longer than the path |
| `VfsRelative.NormalizeRelative` | sources/crystax/vfs/futils.cpp:104-181 | on relative paths the result is the normal form exactly if no prefix that comes to `.` is followed by two `..` with only empty or `.` parts between |
| `VfsRelative.LostParent` | sources/crystax/vfs/futils.cpp:121-126 | `./../..` comes out as `.` |
| `VfsAlgebra.NormalizeIdempotent` | sources/crystax/vfs/futils.cpp:54-187 | normalising twice is normalising once, and the result is absolute |
| `VfsAlgebra.NormalizedIff` | sources/crystax/vfs/futils.cpp:189-228 | is_normalized, with names of legal length, holds exactly of the fixed points of normalize |
| `VfsAlgebra.CoversIff` | sources/crystax/vfs/futils.cpp:274-312 | on normal forms the comparison of is_subpath is the prefix order on stacks |
| `VfsAlgebra.RelativeRoundTrip` | sources/crystax/vfs/futils.cpp:314-366 | relpath answers exactly below the root, and its answer joined to the root normalises to the path |
| `VfsAlgebra.DirnameBasename` | sources/crystax/vfs/futils.cpp:368-452 | dirname and basename joined normalise to the path, root included |
| `VfsAlgebra.NormalizeJoin` | sources/crystax/vfs/futils.cpp:54-187 | normalising a join walks on from the stack of the first part |
| `VfsAlgebra.AbsolutizeResolves` | sources/crystax/vfs/futils.cpp:230-266 | absolutize resolves a path from the stack of the current directory |
| `VfsAlgebra.ResolvedJoin` | sources/crystax/vfs/futils.cpp:230-266 | resolving b from where a leads is resolving a/b |
| `VfsNames.RelNormalLeads` | sources/crystax/vfs/futils.cpp:54-187 | from every directory, the normal form of a relative path leads where the path leads |
| `VfsNames.BasenameFits` | sources/crystax/vfs/futils.cpp:368-416 | the name fits basename's buffer exactly if not both the path is normalized already and its last part has more than NAME_MAX characters |
| `VfsNames.LongName` | sources/crystax/vfs/futils.cpp:368-416 | 256 letters are such a path |
| `VfsBuffer.NormUp` | sources/crystax/vfs/futils.cpp:104-163 | the `..` case edits the C buffer as specified, within its bounds |
| `VfsBuffer.Normalize` | sources/crystax/vfs/futils.cpp:54-187 | the in-place algorithm stays within its buffers and returns what `VfsPath.NormalizeAbsolute` and `VfsRelative.NormalizeRelative` characterise |
| `VfsBuffer.IsNormalized` | sources/crystax/vfs/futils.cpp:189-228 | the scan says yes exactly if every component is a name |
| `VfsBuffer.Basename` | sources/crystax/vfs/futils.cpp:368-416 | NULL for NULL; the name of `VfsAlgebra.DirnameBasename` copied through a buffer of NAME_MAX + 1, or a write behind it, exactly as in `VfsNames.BasenameFits` |
| `VfsBuffer.Dirname` | sources/crystax/vfs/futils.cpp:418-452 | the normal form without the name at its end, as in `VfsAlgebra.DirnameBasename`, within its buffer |
| `VfsCwd.SubpathIsPrefix` | sources/crystax/vfs/futils.cpp:274-366 | is_subpath and relpath from any current directory are the prefix order on the stacks the paths lead to |
| `VfsCwd.ChdirTwice` | sources/crystax/vfs/chdir.cpp:42-72 | chdir(a) then chdir(b) leads where chdir(a/b) does |
| `VfsCwd.AbsolutizeNormal` | sources/crystax/vfs/futils.cpp:230-266 | what absolutize returns is a normal form that fits a buffer |
| `VfsCwd.CurrentDirectory.GetCwd` | sources/crystax/vfs/getcwd.cpp:42-67 | the buffer gets the current directory, exactly if it fits |
| `VfsCwd.CurrentDirectory.Absolutize` | sources/crystax/vfs/futils.cpp:230-266 | join, length limit and normalisation give the path that `VfsAlgebra.AbsolutizeResolves` characterises; NULL for an empty path or one too long |
| `VfsCwd.CurrentDirectory.IsSubpath` | sources/crystax/vfs/futils.cpp:274-312 | the C code decides the relation that `VfsCwd.SubpathIsPrefix` shows to be the prefix order, a missing or unresolvable path being below nothing |
| `VfsCwd.CurrentDirectory.RelPath` | sources/crystax/vfs/futils.cpp:314-366 | the C code returns the relative path that `VfsCwd.SubpathIsPrefix` shows to lead from the root to the path |
| `VfsCwd.DirBitMeans` | sources/crystax/vfs/chdir.cpp:51-60 | of the seven kinds of file, exactly directories, block devices and sockets pass the test of st_mode |
| `VfsCwd.CurrentDirectory.ChDir` | sources/crystax/vfs/chdir.cpp:42-72 | the stored directory stays absolute and normalised with matching length, and changes exactly if stat finds the path and its mode passes the test |
| `VfsMount.TopmostMeans` | sources/crystax/vfs/mount.cpp:109-119 | the driver chosen covers the path and none above it does |
| `VfsMount.UnmountKeepsLinks` | sources/crystax/vfs/mount.cpp:135-171 | taking out what umount accepts leaves every driver on the topmost earlier driver covering its root |
| `VfsMount.LinkedNotDangling` | sources/crystax/vfs/mount.cpp:135-171 | then no driver sits on an unloaded one |
| `VfsMount.MountUnmount` | sources/crystax/vfs/mount.cpp:92-171 | mounting and unmounting a target gives the table back |
| `VfsMount.FindDriverIff` | sources/crystax/vfs/mount.cpp:59-89 | find_driver gives the driver mount would choose exactly if no partial match lies above it, and the system driver only for uncovered paths |
| `VfsMount.WrongDriver` | sources/crystax/vfs/mount.cpp:59-89 | a driver at `/a` is found for `/ab`, which it does not cover |
| `VfsMount.MountTable.Mount` | sources/crystax/vfs/mount.cpp:92-132 | pushes a driver over the right one and keeps the invariant, or changes nothing |
| `VfsMount.MountTable.Umount` | sources/crystax/vfs/mount.cpp:135-171 | removes exactly the topmost entry with the root, refuses a busy one, and keeps the invariant |
| `VfsMount.MountTable.FindDriver` | sources/crystax/vfs/mount.cpp:59-89 | the topmost driver whose root is a prefix of characters |
| `VfsFd.FdTable.constructor` | sources/crystax/vfs/fileio.cpp:132-157 | the three standard descriptors, the rest empty |
| `VfsFd.FdTable.AllocFd` | sources/crystax/vfs/fileio.cpp:159-181 | binds the least free slot and nothing else, or fails exactly if there is none; the top is the largest used index afterwards exactly if it was before |
| `VfsFd.FdTable.FreeFd` | sources/crystax/vfs/fileio.cpp:183-211 | empties the slot and nothing else; the top is right afterwards exactly if it was and some slot is still in use, and stays wrapped around for ever otherwise; a descriptor equal to the table size is read past the table |
| `VfsFd.CloseStandard` | sources/crystax/vfs/fileio.cpp:132-211 | after closing the three standard descriptors the top is SIZE_MAX, and it still is after the next alloc_fd |
| `VfsFd.FdTable.AllocDirp` | sources/crystax/vfs/fileio.cpp:213-235 | the same as alloc_fd, with a handle from which the slot can be computed |
| `VfsFd.FdTable.Resolve` | sources/crystax/vfs/fileio.cpp:272-291 | the record of the descriptor, EBADFD outside the table, and a read past the table for its size itself |
| `VfsFd.FdTable.ResolveDir` | sources/crystax/vfs/fileio.cpp:293-313 | a handle from alloc_dirp resolves to its own slot |
| `VfsFd.FdTable.Pipe` | sources/crystax/vfs/pipe.cpp:38-67 | binds the two least free slots, or leaves table and top unchanged |
| `Strverscmp.StrVersCmp` | sources/crystax/src/strverscmp.c:56-85 | the loops compute the comparison of which the next rows speak |
| `Strverscmp.CompareIsLex` | sources/crystax/src/strverscmp.c:56-85 | the sign is that of the lexicographic order of keys, and zero exactly on equal strings |
| `Strverscmp.CompareAntisymmetric` | sources/crystax/src/strverscmp.c:56-85 | swapping the arguments swaps the sign |
| `Strverscmp.CompareTransitive` | sources/crystax/src/strverscmp.c:56-85 | the order is transitive, and strict unless all three are equal |
| `Strverscmp.NumbersInOrder` | sources/crystax/src/strverscmp.c:73-78 | behind a prefix not ending in a digit, decimals m and n compare as m and n |
| `VecMath.NormTimes` | sources/android/ndk_helper/vecmath.h:1003-1011 | the length of a product of quaternions is the product of the lengths |
| `VecMath.NormBetween` | sources/android/ndk_helper/vecmath.h:452-464 | Lagrange's identity for the quaternion of cross and dot product |
| `VecMath.UnitRotates` | sources/android/ndk_helper/vecmath.h:1043-1067 | the matrix of a unit quaternion has orthonormal columns, the third the product of the others |
| `VecMath.DragTurns` | sources/android/ndk_helper/tapCamera.cpp:284-299 | the drag quaternion takes the pressed point to its mirror image in the point reached |
| `VecTurns.TimesTurns` | sources/android/ndk_helper/vecmath.h:1003-1067 | for unit quaternions, the matrix of a product applied to a vector is the matrix of the second factor applied first, then that of the first |
| `TapCamera.OnSphere` | sources/android/ndk_helper/tapCamera.cpp:301-318 | the projected point is on the unit sphere |
| `TapCamera.RunUnit` | sources/android/ndk_helper/tapCamera.cpp:39-299 | after any calls all three quaternions have unit length |
| `TapCamera.RunRotates` | sources/android/ndk_helper/tapCamera.cpp:39-299 | after any calls the rotation matrix is a proper rotation |
| `TapCamera.RunSettled` | sources/android/ndk_helper/tapCamera.cpp:157-299 | after calls without Reset, the orientation a drag would start from is the one shown |
| `TapRuns.DragGoesOn` | sources/android/ndk_helper/tapCamera.cpp:147-183 | a new drag starts from the orientation shown exactly if a gesture is under way, or Reset was not called since one last began or ended, or what was shown before that Reset was the identity |
| `TapCamera.ResetIsUndone` | sources/android/ndk_helper/tapCamera.cpp:147-152 | Reset shows the identity, and the next drag starts from the old orientation |
| `TapCamera.TurnedAway` | sources/android/ndk_helper/tapCamera.cpp:157-299 | there are calls after which that orientation is not the identity |
| `TapRuns.DragShows` | sources/android/ndk_helper/tapCamera.cpp:94-318 | after any calls, a point of the scene shown where the finger goes down is shown, however the finger moves on, at the mirror image of where it went down in where it is now |
| `CameraObject.TapCamera.constructor` | sources/android/ndk_helper/tapCamera.cpp:39-85 | all quaternions are the identity and the matrix is that of the identity |
| `CameraObject.TapCamera.BallUpdate` | sources/android/ndk_helper/tapCamera.cpp:284-299 | unit length is kept, and the matrix is that of the new orientation |
| `CameraObject.TapCamera.BeginDrag` | sources/android/ndk_helper/tapCamera.cpp:157-173 | keeps unit length and the matrix that of the orientation, also when it ends a drag or a pinch first |
| `CameraObject.TapCamera.Drag` | sources/android/ndk_helper/tapCamera.cpp:185-195 | keeps the same |
| `CameraObject.TapCamera.EndDrag` | sources/android/ndk_helper/tapCamera.cpp:175-183 | keeps the same |
| `CameraObject.TapCamera.BeginPinch` | sources/android/ndk_helper/tapCamera.cpp:200-226 | keeps the same |
| `CameraObject.TapCamera.Pinch` | sources/android/ndk_helper/tapCamera.cpp:242-279 | keeps the same, as the turn about the line of sight has unit length |
| `CameraObject.TapCamera.EndPinch` | sources/android/ndk_helper/tapCamera.cpp:228-240 | keeps the same |
| `CameraObject.TapCamera.Update` | sources/android/ndk_helper/tapCamera.cpp:94-135 | keeps the same through a whole drag by momentum or one step of the ball |
| `CameraObject.TapCamera.Reset` | sources/android/ndk_helper/tapCamera.cpp:147-152 | keeps the same |
| `CameraObject.TapCamera.GetRotationMatrix` | sources/android/ndk_helper/tapCamera.cpp:137-140 | what the renderer reads is the matrix of the orientation and a proper rotation |
| `CpuList.ParseNumber` | sources/android/cpufeatures/cpu-features.c:301-326 | value and end of the digits, or nothing without a digit |
| `CpuList.CpuList.Parse` | sources/android/cpufeatures/cpu-features.c:386-433 | adds the bits of the list up to its end, a newline or the first malformed item |
| `CpuList.PrintParse` | sources/android/cpufeatures/cpu-features.c:374-433 | parsing what was printed, with or without a newline, gives the CPUs of the items |
| `CpuList.BitsMean` | sources/android/cpufeatures/cpu-features.c:362-433 | a bit is set exactly if it is below 32 and some item contains it |
| `CpuList.GetCpuCount` | sources/android/cpufeatures/cpu-features.c:638-653 | the number of CPUs on both lists |
| `CpuList.CutParse` | sources/android/cpufeatures/cpu-features.c:386-450 | a printed list cut anywhere is read as its whole items and the piece at the cut: the number begun, nothing after a dash, or a range to the number begun |
| `CpuList.CountCommon` | sources/android/cpufeatures/cpu-features.c:434-450 | for lists of any length the count is that of the CPUs in common as far as the read buffer reaches; all of them if the lists fit |

## Left out

- native_app_glue: user code stores a saved state only while it handles SAVE_STATE, and only if there is none; looper and input events, configuration queries, logging and failures of the pipe are not part of the model; a command byte is written and read whole.
- GlueWindow.WindowIsAnnounced: assumes, as do the other window theorems, that the framework does not announce the installed window again.
- GlueProgress.CallReturns: assumes fair scheduling and that android_main returns only after it is asked to.
- MakeBuffer.Expander.VariableExpandString: buffer lengths are unbounded, where the code uses unsigned int.
- expand.c: built-in functions, the limit set by `call` on self-references, per-file variable sets and warnings about undefined variables are left out; pattern substitution is a parameter.
- dir.c: the hash tables are maps; VMS, Windows, DOS and Amiga branches, archive members and printing are left out; the file system is a fixed snapshot, and a glob reads its names at once, in no order.
- commands.c: running commands, signals and automatic variables.
- VfsBuffer.Normalize: paths of at most PATH_MAX characters, the size of the code's own buffer.
- VfsBuffer.Basename: the same; nothing is said of what happens after a write behind the buffer.
- VfsCwd.CurrentDirectory.ChDir: for paths that can be made absolute; the code has no branch for the others. What the driver reports is a parameter.
- VfsMount.MountTable.Mount: loading a driver and the calls passed on to the system are parameters; locking is left out, as every operation holds the one mutex.
- VfsFd.FdTable.FreeFd: nothing is said of what happens after a read past the table.
- VfsFd.FdTable.Resolve: the same; the record is returned whole, and its path is not made absolute a second time.
- VfsFd.FdTable.constructor: the table size is a parameter, as its constant is not defined in the repository.
- vfs: dup, dup2, connect and free_dirp, whose effect on the descriptor table is not that of a partial map, and the forwarding calls that only resolve and call a driver.
- TapCamera.RunRotates: numbers are exact, where the code uses float; sqrt, sine, cosine and arc tangent are parameters of which only the defining identities are used.
- tapCamera.cpp: camera translation, zoom and their momentum, which do not touch the rotation.
- CpuList.ParseNumber: numbers are unbounded, where the code uses int and says that it ignores overflow; the 32-bit mask is the set of its bits.
- cpu-features.c: probing of the hardware and of /proc.
