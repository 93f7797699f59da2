# OScelot, verified

A Dafny model of OScelot, a small x86 kernel with three virtual terminals, preemptive scheduling, a
read-only file system and a set of user programs. The project models the kernel's process, scheduler and
terminal code together with its console, paging, file system and RTC driver, and three user-level pieces:
the streaming `grep`, the blinking-character list of `fish`, and number printing. It proves what those
parts promise for every input and every run. One restriction stands on runs of the kernel: they have no
backspace that would move the cursor off the screen. When such a backspace can come is itself proved, exactly.

`dafny verify dfyconfig.toml` checks everything.

## How the parts fit

**The kernel.** `Machine` is the kernel as it looks from outside: three stacks of processes, one per
terminal, with the turn going round the terminals that have a process. It has no process slots with stale
fields, no parent links and no saved-context fields. `Kernel` is the code: the tables of syscalls.c and
terminal.c, the page tables of `Paging` and the video memory of `Console`, changed in place by one method
per entry point. The interrupt handlers, `execute`, `halt` and the shell launch run with interrupts off, so
each is one step; the other system calls are treated as one step too. `Kernel.Kernel.Run` shows
that every run of entry points is a run of `Machine` with the same outcomes; `Valid` says, among the rest,
that CR3 and `tss.esp0` belong to the running process whenever user code resumes. What holds on the stacks
therefore holds on the tables:

* `MachineInvariant` – every step keeps the machine well formed; no shell launch runs out of slots.
* `MachineMoves` – a step moves the stacks in one of six ways.
* `MachineRuns` – an `execute` returns to its caller whatever happens in between, a preempted process goes
  on where it stopped, the turn is fair.
* `MachineScreens` – output of one terminal never shows on another, with the one exception made exact;
  `StrayRun` reaches the exception from boot.
* `MachineLines` – the line of each terminal is what was typed on it, over any run.
* `MachineDrawing`, `MachineWindow` – what each step draws; over any run each screen shows the layout of what was
  printed on it and not rubbed out.
* `MachineLaws`, `MachineCalls` – what each step does to the halt marks, the turn, the terminal on show, the aim of
  the output, the directory cursor and the descriptors, and what it returns, in terms of the state before it.
* `MachineCursor` – which step can make a later backspace leave the screen; `OriginRun` reaches it from boot.
* `ProcessTable`, `TableSteps` – how the tables represent the stacks, and that parent links form chains
  that never repeat although slots are recycled.

**The console.** `Console` specifies every output routine by its effect on the three logical screens, where
the shown terminal lives on the visible page and the others on hidden pages. `ConsoleWindow` compares the
result with a layout of the whole text that knows no cursor and no scrolling. `Keyboard` does the same for
the line editor, and `KeyboardLaws` says what each key does after any sequence of scancodes.

**Files and grep.** `FileSystem` compares the block walk of `read_data` with the concatenated blocks of the
file. `Directory` covers lookup by name, the shared directory cursor and loading a program. `Grep` compares
the fixed-buffer splitter with a filter on the lines of the file.

**Arithmetic and lists.** `Rtc` shows that watching counter bits gives each process its own exact rate.
`BlinkTiming`, `BlinkList`, `BlinkRuns` and `Blinker` cover one blinking character, the list threaded through
the pool, sequences of operations on values, and the operations in memory. `Numbers` covers `itoa`, `strrev` and the number formats of `printf`.

## Where the code does not do what it seems to promise

The model follows the code in each case, and the exact condition is proved.

* Alt with the function key of the terminal already shown leaves the output of a hidden process aimed at
  the shown screen (`MachineScreens.OutputStaysAtHome`, an if-and-only-if).
* A halt that is pending when the timer looks draws the prompt over a line that stays in the buffer. From then
  on backspaces can move the cursor off the screen: a step takes the room of a line if and only if it is such a
  tick with the line longer than what then precedes the cursor (`MachineCursor.StepRoom`), without such a tick
  every key can be drawn (`MachineCursor.RunsAllowed`), and a line can be erased if and only if it has room
  (`MachineCursor.ErasableIffRoom`).
* `grep` prints exactly the lines that contain the pattern if and only if each of them has at most 1024 bytes
  and the pattern starts with a byte below 128 (`Grep.ReportIsExact`). Longer lines that match are printed in
  pieces or lost; other patterns, and the empty one, match nothing.
* A 32-byte file name is found only when the low byte of the file type that follows it is 0; otherwise every
  longer text that goes on with that byte is taken for the name (`Directory.AcceptsByName`).
* A blink length of 0, or above 32768, lasts one tick (`BlinkTiming.LengthsHonoured`).
* A blinking character at location 0 breaks the list (`Blinker.Animation.Add`), and a sync always draws the
  off character (`BlinkList.SyncFaithful`).

## Model

| member | source | states |
|---|---|---|
| `Kernel.Kernel.constructor` | student-distrib/syscalls.c:64-89 | the tables start without a process |
| `Kernel.Kernel.Boot` | student-distrib/kernel.c:190-200 | boot leaves a well-formed machine with one shell, on terminal 0, which is shown with a blank screen, empty lines everywhere, and the other cursors at the top left corner |
| `Kernel.Kernel.FindSlot` | student-distrib/syscalls.c:206-215 | the search finds the lowest slot without a process, or reports that there is none |
| `Kernel.Kernel.ExecuteBaseShell` | student-distrib/syscalls.c:195-273 | a shell becomes the only process of an empty terminal, in the lowest free slot with a rebuilt address space; -2 exactly when no slot is free |
| `Kernel.Kernel.LaunchShell` | student-distrib/syscalls.c:309-314 | with a free slot the launch succeeds and the other processes' tables and pages are kept |
| `Kernel.Kernel.Execute` | student-distrib/syscalls.c:386-522 | execute is a step of the machine: a process in the lowest free slot if and only if the file exists with the magic number and there is a descriptor and a slot for it, -2 if only the slot is missing, -1 otherwise; the caller keeps its resume context |
| `Kernel.Kernel.Probe` | student-distrib/syscalls.c:427-439 | opening, reading and closing the command file restores the descriptors, apart from what closing an RTC or directory descriptor resets |
| `Kernel.Kernel.Spawn` | student-distrib/syscalls.c:445-519 | the new process gets the lowest free slot, its own address space and kernel stack, and its parent waits in the call |
| `Kernel.Kernel.EndProcess` | student-distrib/syscalls.c:285-372 | halt and exception_halt pop the stack and resume the parent with the exit value, or start a new base shell |
| `Kernel.Kernel.Release` | student-distrib/syscalls.c:295-308 | the slot is freed and the parent becomes the top of its terminal |
| `Kernel.Kernel.CloseAll` | student-distrib/syscalls.c:290-293 | ending a process closes its descriptors through their drivers |
| `Kernel.Kernel.FindNext` | student-distrib/syscalls.c:112-118 | the search loop of task_switch ends within three iterations, at the next terminal with a process |
| `Kernel.Kernel.HaltMarked` | student-distrib/syscalls.c:103-110 | a marked process is ended with its mark cleared first |
| `Kernel.Kernel.TaskSwitch` | student-distrib/syscalls.c:99-185 | the timer ends the process if a halt is pending, else passes the turn and resumes the next process where it was stopped, with video memory, CR3 and the kernel stack switched; the halt mark of the terminal in turn is clear afterwards and the others are as before |
| `Kernel.Kernel.HandOver` | student-distrib/syscalls.c:120-183 | the preempted process keeps its context, and a vidmap mapping of the next process points at its own screen |
| `Kernel.Kernel.Open` | student-distrib/syscalls.c:568-601 | the lowest free descriptor is opened on the kind of file found, or -1 |
| `Kernel.Kernel.Close` | student-distrib/syscalls.c:612-621 | the descriptor is closed and its driver told; 0, 1, out-of-range and closed descriptors are refused |
| `Kernel.Kernel.Read` | student-distrib/syscalls.c:535-540 | a read of a directory descriptor returns the name under the shared cursor and its length and moves the cursor, or 0 and nothing at the end; refused descriptors give -1 |
| `Kernel.Kernel.ReadNames` | student-distrib/filesys.c:299-315 | n reads of a directory return n consecutive names, and nothing past the last |
| `Kernel.Kernel.WriteRate` | student-distrib/syscalls.c:552-557 | a process's rate changes only through its RTC descriptor and only to an accepted rate, for the byte count; every other write but that of descriptor 1 gives -1 |
| `Kernel.Kernel.Vidmap` | student-distrib/syscalls.c:651-688 | for an address whose four bytes lie in the program image, and so are within reach of the process, every byte of the mapped page is the byte of the screen of its own terminal and the mapped address is stored; elsewhere -1 and no change |
| `Kernel.Kernel.KeyboardHandler` | student-distrib/terminal.c:43-197 | every scancode edits the shown line and screen, switches terminals, or ends or marks the shown terminal's process |
| `Kernel.Kernel.DoReg` | student-distrib/terminal.c:254-318 | the character of the selected table is inserted and echoed; keys without a character do nothing |
| `Kernel.Kernel.ModifierKey` | student-distrib/terminal.c:64-103 | the caps lock is switched by its press and by nothing else; the other modifiers are set by a press of their own keys, cleared by a release of them, and otherwise kept |
| `Kernel.Kernel.ProcessAvailable` | student-distrib/terminal.c:113-121 | true exactly when some slot has no process |
| `Kernel.Kernel.AltKey` | student-distrib/terminal.c:105-145 | Alt-F switches whenever the terminal has a process or can get one, which includes the unchecked Alt-F1; otherwise nothing changes |
| `Kernel.Kernel.InterruptKey` | student-distrib/terminal.c:147-164 | Ctrl-C ends the process if its terminal has the turn, else marks the shown terminal |
| `Kernel.Kernel.TerminalSwitch` | student-distrib/terminal.c:207-245 | the new terminal is shown with its own screen, starting a shell there if it has none; the three logical screens survive |
| `Kernel.Kernel.TerminalWrite` | student-distrib/terminal.c:382-396 | the text appears on the screen output is aimed at, and its length is returned; -1 for a null buffer |
| `Kernel.Kernel.TerminalRead` | student-distrib/terminal.c:407-430 | the submitted line is copied, cut to the given size, and the buffer is emptied |
| `Kernel.Kernel.TerminalInit` | student-distrib/terminal.c:23-33 | the line buffer is emptied and the colours are set; no screen changes |
| `Kernel.Kernel.Take` | student-distrib/syscalls.c:99-688 | every entry point is one step of the machine, with the same outcome, and keeps all tables valid |
| `Kernel.Kernel.Run` | student-distrib/syscalls.c:99-688 | refinement: every run of entry points is a run of the three-stack machine with the same outcomes |
| `Kernel.StacksDisjoint` | student-distrib/syscalls.c:170-175 | the kernel stacks of two processes do not overlap and lie in the kernel's page |
| `MachineInvariant.StepOk` | student-distrib/syscalls.c:195-522 | in every reachable state slots are distinct, parents wait, exactly one process runs, the other tops are preempted, terminal 0 and the shown terminal have a process, and nonzero rates and cursors have an open descriptor |
| `MachineInvariant.RelaunchFindsSlot` | student-distrib/syscalls.c:309-314 | a halted base shell always leaves a slot for its successor |
| `MachineInvariant.TerminateOk` | student-distrib/syscalls.c:285-372 | the end of a process keeps the machine well formed |
| `MachineInvariant.ExecOk` | student-distrib/syscalls.c:386-522 | execute keeps the machine well formed, also when it fails half way |
| `MachineInvariant.KeyedOk` | student-distrib/terminal.c:43-197 | every key keeps the machine well formed |
| `MachineLaws.ModifiersOfRun` | student-distrib/terminal.c:64-103 | over every run the modifiers are those of the scancodes alone, whatever processes do in between |
| `MachineLaws.MarkStep` | student-distrib/syscalls.c:103-104 | a halt mark is set by Ctrl-C for a terminal shown and not in turn, cleared by a tick that finds its terminal in turn, and otherwise kept |
| `MachineLaws.MarksAreSpent` | student-distrib/syscalls.c:103-110 | over every run the timer ends exactly as many processes of a terminal as Ctrl-C newly marked it, up to a mark that was there before or is still pending |
| `MachineLaws.OneMarkOneEnd` | student-distrib/terminal.c:161-164 | one Ctrl-C for a hidden process ends exactly one process, at the first tick that finds its terminal in turn |
| `MachineLaws.ShownStep` | student-distrib/terminal.c:105-145 | Alt with a function key shows that terminal if it has a process or a slot is free for one, and nothing else changes the terminal on show |
| `MachineLaws.TurnStep` | student-distrib/syscalls.c:112-118 | the turn goes to a started terminal, and on a tick without a pending halt to the first terminal with a process after the one in turn |
| `MachineLaws.TargetStep` | student-distrib/terminal.c:186-191 | every key and every change of the turn aim output at the terminal in turn, except that Alt with the function key of the terminal on show aims it there |
| `MachineLaws.CursorStep` | student-distrib/filesys.c:239-245 | a directory read moves the shared cursor on by one up to the end, and any close of a directory, by call, by halt or by execute, resets it |
| `MachineCalls.ExecuteReturns` | student-distrib/syscalls.c:427-454 | for every state, file and magic number, which process execute starts or which of -1 and -2 it returns |
| `MachineCalls.ExecuteEffect` | student-distrib/syscalls.c:445-519 | a successful execute adds a process with two standard descriptors, no rate and no video page on top of its waiting caller; a failing one changes nothing but the rate of a caller that named the clock |
| `MachineCalls.EndRestarts` | student-distrib/syscalls.c:309-314 | the end of the last process of a terminal starts a shell there in the lowest slot the others do not use |
| `MachineCalls.AskStarts` | student-distrib/terminal.c:216-235 | asking for a terminal without a process starts a shell there in the lowest free slot and stops the running process where it is |
| `MachineCalls.InterruptsReturn` | student-distrib/syscalls.c:120-123 | keys and ticks that end, start and switch nothing return to the interrupted process with all stacks kept |
| `MachineCalls.CallerFinds` | student-distrib/syscalls.c:507-519 | whatever was executed in between, a caller gets its terminal back with the descriptors, rate and video page it had, and the processes below it |
| `MachineCalls.PreemptedFinds` | student-distrib/syscalls.c:162-183 | whatever other terminals do in between, a preempted process gets its terminal back exactly as it left it |
| `MachineCalls.OpenReturns` | student-distrib/syscalls.c:568-601 | a file that exists gets the lowest closed descriptor and no other changes; -1 and no change if there is no file or no descriptor |
| `MachineCalls.CloseReturns` | student-distrib/syscalls.c:612-621 | exactly the descriptors in use from 2 on can be closed; only the clock and directories reset anything else |
| `MachineCalls.OpenThenClose` | student-distrib/syscalls.c:568-621 | closing what open returned restores the process, except for the rate of the clock and the cursor of a directory |
| `MachineCalls.ReadReturns` | student-distrib/syscalls.c:535-540 | what a read through any descriptor but 0 returns, with the length of the entry under the cursor for a directory |
| `MachineCalls.RateReturns` | student-distrib/syscalls.c:552-557 | a write sets the rate of the process if and only if it goes to its clock with 0 or a power of two up to 1024, for the byte count, and is -1 without a change otherwise |
| `MachineCalls.VidmapReturns` | student-distrib/syscalls.c:651-658 | vidmap succeeds if and only if the whole pointer lies in the program image |
| `MachineCalls.WriteReturns` | student-distrib/terminal.c:382-396 | a write to the screen returns the length of its buffer and changes nothing but screens; -1 without a change for a null buffer |
| `MachineMoves.StepMoves` | student-distrib/syscalls.c:99-522 | each step keeps the stacks, pushes, pops, replaces a base shell, passes the turn, or starts a terminal; nothing else happens to them |
| `MachineRuns.EndResumesParent` | student-distrib/syscalls.c:315-372 | the end of a process resumes exactly its waiting parent, with the status 0-255, or 256 after an exception |
| `MachineRuns.CallersKept` | student-distrib/syscalls.c:507-519 | over any run, the processes below a stack height that is not reached again are untouched |
| `MachineRuns.CallerWaits` | student-distrib/syscalls.c:507-519 | while what an execute started has not ended, its caller waits in that execute |
| `MachineRuns.CallReturnsToCaller` | student-distrib/syscalls.c:507-519 | whatever happens between an execute and the end of what it started, the caller resumes in that execute with the exit value |
| `MachineRuns.OthersUntouched` | student-distrib/syscalls.c:99-185 | a terminal without the turn keeps its whole stack |
| `MachineRuns.PreemptedGoesOn` | student-distrib/syscalls.c:162-183 | a process that lost the processor resumes at that very context when its terminal next gets the turn |
| `MachineRuns.TurnIsFair` | student-distrib/syscalls.c:112-118 | with no halt pending and no terminal started, every terminal with a process gets the turn within as many ticks as there are such terminals, whatever is executed or halted meanwhile |
| `MachineScreens.OutputStaysAtHome` | student-distrib/terminal.c:207-245 | after a step, output goes to the running process's own terminal if and only if the step is not Alt-F of the shown terminal during another's turn |
| `MachineScreens.OutputComesHome` | student-distrib/syscalls.c:125-130 | any other key, and the next switch of the turn, aim stray output right again |
| `MachineScreens.StrayOutput` | student-distrib/terminal.c:208-210 | the failing family: after that key the hidden process writes on the shown screen |
| `MachineScreens.ScreensKept` | student-distrib/terminal.c:207-245 | over every run from every well-formed state, a logical screen and its cursor change only by a step that draws on that terminal, switching away and back included |
| `MachineScreens.ScreensDoNotInterfere` | student-distrib/terminal.c:207-245 | over every run without that key, such a step is one of the terminal's own process, a key typed while it is shown, or its start |
| `StrayRun.StrayIsReachable` | student-distrib/terminal.c:208-210 | from boot, Alt, F2, a tick and F2 again make the shell of terminal 0 write on the screen of terminal 1 |
| `MachineDrawing.StepScreens` | student-distrib/terminal.c:43-245 | what every step of the kernel leaves on the screen of every terminal |
| `MachineWindow.StepTidy` | student-distrib/terminal.c:221-235 | output is always aimed at the terminal in turn or on show, so a terminal that was never started has its cursor at the top left corner |
| `MachineWindow.ScreenIsWindow` | student-distrib/lib.c:258-284 | over every run the screen of each terminal shows the layout of what was printed on it and not rubbed out since it was cleared, from the row that the layout made it scroll to, backspaces across row starts included |
| `MachineCursor.StepRoom` | student-distrib/syscalls.c:102-110 | with every line at most as long as its cursor is far from the corner, a step breaks that if and only if it is a tick that draws the prompt over a longer line |
| `MachineCursor.RunsAllowed` | student-distrib/terminal.c:339-357 | over every run without such a tick, no backspace leaves the screen |
| `MachineCursor.ErasableIffRoom` | student-distrib/terminal.c:339-357 | the shown line can be erased to its start if and only if it is at most as long as its cursor is far from the corner |
| `OriginRun.BootHolds` | student-distrib/kernel.c:190-200 | after boot every line has room, and the screen of terminal 0 shows nothing |
| `OriginRun.OriginIsReachable` | student-distrib/terminal.c:161-164 | a failing input: a run of 25 events from boot after which a backspace would leave the screen |
| `MachineLines.StepTypes` | student-distrib/terminal.c:43-197 | a step changes a terminal's line only by a key typed while it is shown, a read by its process, or the launch of its shell |
| `MachineLines.LineIsTyped` | student-distrib/terminal.c:43-197 | over every run the line of each terminal is the fold of what was typed on it since it was last read or started |
| `MachineLines.ReadAfterEnter` | student-distrib/terminal.c:407-430 | after any run and Enter, whatever happens elsewhere, a read by the terminal's process returns the typed line and a newline, cut to the given size |
| `ProcessTable.ChainIsStack` | student-distrib/syscalls.c:195-522 | following PPID from active_processes gives the terminal's stack from top to bottom and then 0 |
| `ProcessTable.ChainRuns` | student-distrib/syscalls.c:195-522 | the chain ends at 0 after exactly the processes of the terminal; all of them run, and only the first is active |
| `ProcessTable.ChainNeverRepeats` | student-distrib/syscalls.c:195-522 | no slot occurs twice in the chains of all terminals, however slots are recycled |
| `ProcessTable.ChainMeetsAll` | student-distrib/syscalls.c:195-522 | every running process is on the chain of its terminal |
| `ProcessTable.LowestIsFresh` | student-distrib/syscalls.c:206-215 | the first slot not running is the lowest one no stack uses |
| `TableSteps.HandoverRep` | student-distrib/syscalls.c:162-183 | every other stack top holds the switch context of its latest suspension |
| `TableSteps.ParentSlot` | student-distrib/syscalls.c:315-322 | a waiting parent's slot holds the execute context of its pending execute |
| `TableSteps.PushStep` | student-distrib/syscalls.c:445-519 | filling a slot and deactivating the parent represents the pushed stack |
| `TableSteps.PopStep` | student-distrib/syscalls.c:295-318 | freeing a slot and activating the parent represents the popped stack |
| `TableSteps.CloseRep` | student-distrib/syscalls.c:612-621 | closing through the jumptable represents closing the descriptor |
| `TableSteps.StoppedSlotsAreClean` | student-distrib/syscalls.c:290-293 | a slot without process has no open descriptor from 2 on and no RTC rate |
| `TableSteps.RateNeedsDescriptor` | student-distrib/rtc.c:140-167 | a nonzero active_freq implies a running process with an open RTC descriptor |
| `TableSteps.CursorNeedsDirectory` | student-distrib/filesys.c:239-245 | dirs_read is 0 whenever no process has a directory open |
| `Console.Display.Putc` | student-distrib/lib.c:258-284 | only the target's logical screen changes, to what one more character makes of it |
| `Console.Display.Puts` | student-distrib/lib.c:239-249 | the same for a whole text |
| `Console.Display.Scroll` | student-distrib/lib.c:667-685 | the page moves up a row and ends in a blank row, in place |
| `Console.Display.Clear` | student-distrib/lib.c:90-98 | the target's page becomes blank, cursor and other screens stay |
| `Console.Display.SetPos` | student-distrib/lib.c:696-713 | columns wrap into rows and rows stop at the last one |
| `Console.MovedPlace` | student-distrib/lib.c:696-713 | a position on the screen is where the cursor goes, and beyond it the cursor stays in the last row |
| `Console.Display.Target` | student-distrib/lib.c:15-25 | the terminal whose cursor is used is the one whose page is written |
| `Console.Display.SetVideoContext` | student-distrib/lib.c:38-48 | output is aimed at the given terminal's logical screen, except that the context of the terminal on show aims at its stale page; unknown contexts change nothing |
| `Console.Display.CopyPage` | student-distrib/lib.c:57-82 | one page is copied and the other pages are kept |
| `Console.Display.Exchange` | student-distrib/terminal.c:237-239 | saving the visible page and loading another leaves all three logical screens as they were |
| `Console.Display.StartBlank` | student-distrib/terminal.c:221-225 | only the started terminal's screen changes, to a blank one |
| `Console.Display.RubOut` | student-distrib/terminal.c:339-357 | the cell before the cursor becomes blank and the cursor moves there, from the start of a row to the end of the row above too, and nothing else changes |
| `Console.BackspacedPlace` | student-distrib/terminal.c:345-357 | the only cell that changes is the one before the cursor, in reading order, and the cursor moves there |
| `Console.BackspaceUndoes` | student-distrib/terminal.c:345-357 | a backspace undoes a character put on a blank cell, at the end of a row too, unless it scrolled the screen |
| `ConsoleWindow.RowsAppend` | student-distrib/lib.c:258-284 | a character only extends the last row of the layout, or starts a new one |
| `ConsoleWindow.PutCharStep` | student-distrib/lib.c:258-284 | one character shows the layout with that character at its end, scrolled by a row when it needs one |
| `ConsoleWindow.PutTextStep` | student-distrib/lib.c:239-249 | any text on a screen that shows a layout shows the layout with the text at its end |
| `ConsoleWindow.RubStep` | student-distrib/terminal.c:345-357 | a backspace shows the layout of the text without its last character; a line break leaves spaces up to the last column, and no row that scrolled away comes back |
| `ConsoleWindow.ShowsLastRows` | student-distrib/lib.c:258-284 | a text printed on a cleared screen shows exactly the last 25 rows of the text wrapped at 80 columns, blank padded, with the cursor after it |
| `Keyboard.EditKeepsText` | student-distrib/terminal.c:64-103 | a key changes the buffer prefix as it changes a plain text of at most 127 characters |
| `Keyboard.BufferHoldsTypedText` | student-distrib/terminal.c:43-197 | over every scancode sequence the buffer prefix is the fold of typed characters and erasures |
| `Keyboard.SpecialKeysInsertNothing` | student-distrib/terminal.c:179-181 | modifier and special keys fall through to the tables and add no character |
| `Keyboard.ReadReturnsLine` | student-distrib/terminal.c:407-430 | a read with no key after Enter returns the typed line and a newline, cut to the given size |
| `KeyboardLaws.ModifiersHeld` | student-distrib/terminal.c:64-103 | over every scancode sequence the caps lock is switched by each of its presses, and a modifier is held if and only if the last code of its own keys is a press, or there is none and it was held before |
| `KeyboardLaws.TableTypes` | student-distrib/terminal.c:254-318 | the four tables agree with one keyboard: a letter is a capital if and only if exactly one of shift and caps lock holds, and shift alone selects among the other characters |
| `KeyboardLaws.WhatKeysDo` | student-distrib/terminal.c:43-197 | what the last key of every scancode sequence does, in terms of the codes before it: commands need Ctrl or Alt held, other keys type their character |
| `Paging.Tables.NewPageDirectory` | student-distrib/paging.c:83-109 | the directory is rebuilt and loaded; every address below 8 MB but the first page is the kernel's and mapped to itself, the program image has 4 MB of its own, and every other address is unmapped, so any vidmap mapping is lost; other processes' tables are kept |
| `Paging.Tables.NewPageDirectoryEntry` | student-distrib/paging.c:118-141 | the virtual page translates to the given physical page with the given privilege, and no other entry changes |
| `Paging.Tables.MapVideo` | student-distrib/syscalls.c:660-683 | vidmap's address leads to one video page |
| `Paging.Tables.AddressSpace` | student-distrib/paging.c:83-141 | where every 32-bit address of a process leads: the kernel's 8 MB, its image, at most one video page, and nowhere else |
| `Paging.Tables.UserReach` | student-distrib/paging.c:83-141 | user code reaches exactly the process's own 4 MB page and, after vidmap, one video page |
| `Paging.Tables.KernelUnreachable` | student-distrib/paging.c:83-141 | no user address leads below 8 MB, where the kernel is, except to a video page |
| `Paging.Tables.Isolated` | student-distrib/paging.c:83-141 | two processes share nothing but video pages |
| `FileSystem.ReadData` | student-distrib/filesys.c:139-183 | -1, 0 or the number of bytes wanted; each byte is the one in its block, and a missing block is an error |
| `FileSystem.ReadIsSlice` | student-distrib/filesys.c:139-183 | what the block walk copies is the slice of the concatenated blocks |
| `FileSystem.NoneMissing` | student-distrib/filesys.c:139-183 | on a well-formed image no read inside the file fails |
| `FileSystem.FailsAtFirstMissing` | student-distrib/filesys.c:147-173 | a read that starts before the first missing block fails exactly when it reaches that block |
| `FileSystem.OpenFile.Read` | student-distrib/filesys.c:285-290 | returns the next bytes of the file and advances past them, or -1 without moving when a touched block does not exist |
| `FileSystem.OpenFile.Cat` | syscalls/ece391cat.c:21-30 | prints the whole file if and only if all its blocks exist, else the bytes before the failing piece and a message |
| `FileSystem.ReadsAreConsecutive` | student-distrib/filesys.c:285-290 | reads of any sizes yield consecutive slices that add up to a prefix |
| `FileSystem.NextSlice` | student-distrib/filesys.c:285-290 | on a file whose blocks exist a read returns the next slice of the contents |
| `FileSystem.ReadAll` | student-distrib/filesys.c:285-290 | any sequence of reads of any file returns consecutive bytes of it, and those slices when its blocks exist |
| `Directory.Measure` | student-distrib/filesys.c:94-99 | the length loop stops at the first zero byte among 33, the last of which belongs to the type |
| `Directory.MeasuredIsLength` | student-distrib/filesys.c:94-99 | the measured length is the name's, except for a 32-byte name followed by a nonzero type byte |
| `Directory.SameBytes` | student-distrib/lib.c:571-589 | strncmp over the name decides equality byte by byte |
| `Directory.ReadDentryByName` | student-distrib/filesys.c:84-112 | the first entry that accepts the name, or failure when none does |
| `Directory.AcceptsByName` | student-distrib/filesys.c:84-112 | for texts of every length: an entry accepts its own name, provided the name ends inside its field or the type byte is 0, and otherwise the texts that go on with the type byte |
| `Directory.LookupIsByName` | student-distrib/filesys.c:84-112 | an entry accepts exactly its own name if and only if that name ends inside its field or the type byte is 0 |
| `Directory.LookupFindsEntry` | student-distrib/filesys.c:84-112 | with distinct names, each listed name looks up to its own entry and to no other |
| `Directory.ListedIsName` | student-distrib/filesys.c:299-315 | what a directory read returns, in terms of the name |
| `Directory.Cursor.Read` | student-distrib/filesys.c:299-315 | one entry per read, then 0 without a change |
| `Directory.Cursor.List` | syscalls/ece391ls.c:18-26 | a lone reader gets every entry once and in order, and then 0 |
| `Directory.Cursor.Relist` | student-distrib/filesys.c:239-245 | after the listing every read returns 0, until a close makes the same listing start again |
| `Directory.FsCopy` | student-distrib/filesys.c:192-218 | loading a program yields the bytes of the file found; -1 and no change exactly when none is found or a block of it does not exist |
| `Grep.Strncmp` | syscalls/ece391support.c:35-46 | 0 exactly when the pattern occurs at that place |
| `Grep.Fdputs` | syscalls/ece391support.c:19-22 | prints up to the terminating zero |
| `Grep.SearchLine` | syscalls/ece391grep.c:40-51 | the line is reported once if the pattern occurs in it |
| `Grep.MoveToFront` | syscalls/ece391support.c:14-17 | the overlapping copy moves the text to the front of the buffer |
| `Grep.SearchBuffer` | syscalls/ece391grep.c:28-57 | one buffer's worth: what is printed and what is kept add up to what was left to report |
| `Grep.DoOneFile` | syscalls/ece391grep.c:9-66 | for every file the report of its segments, whatever the buffer boundaries; it is the report of the matching lines if and only if they fit the buffer and the pattern can start a match; a read that fails ends it with -1, after the report of all but at most the last 1023 bytes that could be read |
| `Grep.SegmentsPrintLines` | syscalls/ece391grep.c:22-57 | what is printed is the report of the lines if and only if every line that matches has at most 1024 bytes |
| `Grep.LongMatchLost` | syscalls/ece391grep.c:33-51 | the failing family: a longer line that matches is not printed as a line |
| `Grep.LongLineFails` | syscalls/ece391grep.c:33-51 | a failing input: a line of 1025 bytes |
| `Grep.ReportIsExact` | syscalls/ece391grep.c:9-66 | exactly the lines that contain the pattern are printed, once each and in order, if and only if each has at most 1024 bytes and the pattern starts with a byte below 128 |
| `Grep.ExactIffSearchable` | syscalls/ece391grep.c:42-44 | exactly the matching lines are printed if and only if the pattern can start a match, or occurs nowhere |
| `Rtc.Clock.Handler` | student-distrib/rtc.c:59-91 | exactly the processes whose period divides the number of interrupts are notified, once each, across wrap-around of the counter |
| `Rtc.BitChanges` | student-distrib/rtc.c:70-86 | a bit of the 32-bit counter changes exactly at the multiples of its mask |
| `Rtc.CounterBit` | student-distrib/rtc.c:70-86 | wrap-around does not disturb the low bits |
| `Rtc.DueIsMultiple` | student-distrib/rtc.c:75-86 | being due in an interval means that a multiple of the period lies in it |
| `Rtc.RateIsExact` | student-distrib/rtc.c:59-91 | one multiple of the period in every window of 1024/f interrupts, f in every 1024, none at rate 0 |
| `Rtc.Clock.Busy` | student-distrib/rtc.c:59-91 | over any number of interrupts the handler sets the flag of each process exactly as often as its rate says |
| `Rtc.Clock.Second` | student-distrib/rtc.c:59-91 | 1024 interrupts, wherever they start, notify a process f times at rate f |
| `Rtc.Clock.CloseThenBusy` | student-distrib/rtc.c:163-167 | after a close a process is not notified, however many interrupts follow |
| `Rtc.Clock.Write` | student-distrib/rtc.c:140-154 | the rate is set if the buffer is not null and holds an accepted rate, else -1 and no change |
| `Rtc.RatesArePowers` | student-distrib/rtc.c:140-154 | the accepted rates are 0 and the powers of two from 2 to 1024 |
| `Rtc.Clock.Read` | student-distrib/rtc.c:115-128 | waits for the next multiple of the period unless a notification is pending, and misses nothing for others |
| `Rtc.Clock.ReadMany` | fish/fish.c:41-44 | a loop of reads with any number of interrupts between them returns each time at the next notification, or at once if one is pending |
| `Rtc.KeepsPace` | fish/fish.c:41-44 | a loop that reads again within a period runs at its own rate: n reads take n periods |
| `BlinkTiming.PhaseStep` | fish/blink.S:64-86 | a tick moves the element one place on in its cycle |
| `BlinkTiming.BlinksPeriodically` | fish/blink.S:49-99 | n ticks after an add the character is on iff n modulo the cycle is below the on phase, for all 16-bit lengths |
| `BlinkTiming.LengthsHonoured` | fish/blink.S:64-66 | the lengths are honoured for ever if and only if both are between 1 and 32768 |
| `BlinkTiming.InStepForever` | fish/blink.S:267-275 | synchronised elements stay equal in status and countdown on all later ticks |
| `BlinkList.ListIsUnique` | fish/blink.S:351-379 | memory determines the list, so following the links ends |
| `BlinkList.FullIffLong` | fish/fish.c:161-171 | the pool is exhausted exactly when the list has 2000 elements |
| `BlinkList.TickKeepsFaithful` | fish/blink.S:68-86 | with distinct locations the tasklet keeps every character on the screen as its status says |
| `BlinkList.SyncFaithful` | fish/blink.S:277-285 | after a sync the screen is right if and only if the copied status is off or the two characters agree |
| `BlinkList.AddFaithful` | fish/blink.S:164-170 | adding at a new location keeps the screen right |
| `Blinker.Animation.Malloc` | fish/fish.c:161-171 | the first free slot, or null when there is none |
| `Blinker.Animation.Add` | fish/blink.S:105-184 | the element is put in front of the list; fails for a location off the screen or a full pool; location 0 leaves memory that represents no list |
| `Blinker.Animation.AddAfterZero` | fish/blink.S:140-162 | after an element at location 0 the next one takes the same slot and links to itself |
| `Blinker.Animation.FindHelper` | fish/blink.S:351-379 | the most recently added element at the location, compared in 16 bits, or null |
| `Blinker.Animation.Find` | fish/blink.S:302-349 | a copy of that element, or -1 |
| `Blinker.Animation.Remove` | fish/blink.S:187-237 | that element leaves the list and its slot is freed; -1 and no change when there is none |
| `Blinker.Animation.AddThenRemove` | fish/blink.S:105-237 | removing what was just added restores the memory exactly |
| `Blinker.Animation.Sync` | fish/blink.S:240-300 | lengths, countdown and status are copied from the first element to the second, and nothing else changes |
| `Blinker.Animation.Tasklet` | fish/blink.S:49-99 | every element ticks once and the list stays |
| `Blinker.Animation.TaskletMany` | fish/fish.c:54-57 | over n ticks each element lives its own life |
| `Blinker.Animation.SyncThenTick` | fish/fish.c:59-64 | synchronised elements still blink together after any number of ticks |
| `Blinker.Animation.AddThenTick` | fish/fish.c:52-57 | an added element blinks with its period |
| `Blinker.Animation.Run` | fish/blink.S:49-379 | any sequence of adds, removals, syncs, lookups and ticks is the fold of their effects on the elements, with the same results |
| `BlinkRuns.RunFaithful` | fish/blink.S:49-237 | over every run that adds at free locations and does not sync, each character is on the screen as its status says |
| `BlinkRuns.SyncPerformed` | fish/blink.S:240-300 | a synchronised element keeps its place and characters and takes over the other's timing, and the screen stays right if and only if the copied status is off or its two characters agree |
| `BlinkRuns.ElementLives` | fish/blink.S:49-379 | through any run that leaves its location alone an element only ticks, whatever happens to the others |
| `BlinkRuns.AddedElementBlinks` | fish/blink.S:49-379 | an added element blinks with its period through every such run |
| `Numbers.Strlen` | student-distrib/lib.c:362-370 | the distance to the terminating zero |
| `Numbers.Strrev` | student-distrib/lib.c:337-353 | the string is reversed in place and nothing around it changes |
| `Numbers.Itoa` | student-distrib/lib.c:295-328 | the buffer holds the numeral of the value, terminated |
| `Numbers.NumeralDenotes` | student-distrib/lib.c:295-328 | the numeral has digits of the radix only and no leading zero, and parses back to the value |
| `Numbers.NumeralIsUnique` | syscalls/ece391support.c:49-103 | no other string denotes the value |
| `Numbers.NumeralLength` | student-distrib/lib.c:295-328 | a 32-bit value takes at most 32 digits, and 8 in hexadecimal |
| `Numbers.PrintHex` | student-distrib/lib.c:152-172 | `%#x` prints exactly eight hexadecimal digits that denote the value |
| `Numbers.PrintSigned` | student-distrib/lib.c:185-198 | `%d` prints the value with its sign, for all 32-bit values including the least |

## Left out

- Kernel.Kernel.KeyboardHandler: a backspace while characters are buffered and the cursor is at the top left corner is excluded, because the code would then leave the screen; `MachineCursor` and `OriginRun` say when that happens.
- MachineInvariant.KeyedOk: excludes the same backspace.
- Console.Display.RubOut: the cursor at the top left corner is excluded for the same reason.
- Kernel.Kernel.Take: `write`, `read`, `open`, `close` and `vidmap` run with interrupts on in the code and are one step each in the model; a terminal read before Enter is a step that leaves the call waiting.
- Kernel.Kernel.Run: a run has no such backspace, and what a read of a plain file or of the RTC returns is a parameter of the event; `FileSystem` and `Rtc` say what it is.
- Kernel.Kernel.ExecuteBaseShell: the "shell" file exists and can be loaded, so the -1 of a failing load does not occur.
- Kernel.Kernel.Spawn: the same holds for the command file that was just read.
- Kernel.Kernel.Execute: splitting the command line and handing over the arguments (`getargs`) is not modelled; the kind of file found and whether it starts with the magic number are parameters, and loading a file that was just read succeeds.
- Kernel.Kernel.Open: the inode and position of a descriptor are kept in `FileSystem.OpenFile` and not in the process table.
- Kernel.Kernel.Probe: the first read of the command file succeeds and does not wait, because a block of the file that does not exist, or an RTC rate, are no part of this machine.
- Blinker.Animation.Run: elements are added at locations other than 0; `Blinker.Animation.Add` says what happens otherwise.
- Grep.DoOneFile: files and patterns contain no zero byte, and the byte behind the buffer, which the code never initialises, is not a newline unless the file fits in the buffer.
- FileSystem.ReadData: the block number fetched for an offset beyond the inode's table is an arbitrary parameter, because the code reads it before it checks the offset.
- Directory.FsCopy: the file fits the copy buffer, which the code sizes as all data blocks together, and the memory it is copied to.
- Console.Display.SetPos: negative positions are excluded.
- Saved contexts are pairs of numbers; the assembly that saves registers and switches stacks is not modelled.
- Port I/O, the interrupt controller, the timer chip, the VGA cursor, and the descriptor tables.
- Writes of user programs through a vidmap mapping.
- Exception messages are a parameter of the fault step.
- `set_handler`, `sigreturn`, `fs_write` and the open functions of the drivers, which return constants.
- `printf` formats other than `%#x` and `%d`, and the demo programs, which only print and wait.
