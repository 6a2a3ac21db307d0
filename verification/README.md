# A verified model of H2Engine's core

H2Engine is a C++ game-server engine with a small base library, bindings for Lua, Python and PHP, and a
tank game written in Python on top. This project models the parts of it whose correctness is not visible
from one function body, and proves what they are for.

| files | what they model |
|---|---|
| `SmartPtr.dfy`, `SmartPtrSteps.dfy`, `SmartPtrLaws.dfy`, `SmartPtrEffects.dfy`, `Counting.dfy` | `SharedPtr`, `WeakPtr` and `RefData` as interleaved atomic steps of any number of threads: two counts, a spin lock, per-thread program counters, and owners counted over handles and threads |
| `TaskQueue.dfy`, `TaskQueueEffects.dfy` | the mutex and condition-variable protocol of `TaskQueue`, with histories of the accepted and executed tasks |
| `TimerService.dfy`, `TimerLaws.dfy` | the timer scheduler: a pending list, a multimap that is changed in place while it is walked, and clocks that may go back |
| `TankMap.dfy`, `TankServer.dfy`, `TankLaws.dfy`, `TankBullet.dfy` | the tank game: grid collision, sessions, maps, teams and tank ids, moves, bullets |
| `TimeTool.dfy`, `TimeParse.dfy`, `TimeLaws.dfy`, `TimeText.dfy`, `TimeConversions.dfy`, `Numerals.dfy` | the hand-written `strptime` and the printer it reads back |
| `Script.dfy`, `Lua.dfy`, `LuaLaws.dfy`, `LuaStack.dfy`, `LuaConvert.dfy`, `LuaCall.dfy` | values on their way into Lua and back, as functions and against the Lua stack, and the stack of a call |
| `Python.dfy`, `Php.dfy`, `KeyOrder.dfy` | the same conversions for Python and PHP |
| `SqlEscape.dfy`, `Csv.dfy`, `CsvLaws.dfy`, `CsvPlain.dfy` | SQL escaping into a fixed buffer; the splitter and the CSV loader |

Where the source changes state, the model has methods over fields, arrays or the stack, each proved equal to a
function of the old state; what the source is for is then proved of that function, over whole runs. The two
concurrent protocols are step systems on values, because their claims are about every interleaving.

## Where the code does less than it seems to promise

Each of these is proved as an if-and-only-if, or with the input that shows it.

* `SharedPtr::reset()` on a handle that is not the last strong owner keeps `m_dest_ptr`, and `WeakPtr::reset()` on
  a handle that is not the last weak one keeps `m_ref_data`, so the destructor returns the same units again:
  `SmartPtrLaws.ResetThenDestroyIff` says exactly when it does not. What follows is proved for any number of owners,
  with a reachable state each: the object is deleted under another owner (`ResetThenDestroyDeletesTooEarly`,
  `TwoOwnersExample`) or the block is freed under one (`ResetThenDestroyFreesTooEarly`, `WeakExample`). A SharedPtr that
  was the last strong owner but not the last weak one is destroyed cleanly, but must not be copied any more
  (`ResetThenCopyTouchesFreed`, `CopyExample`). All other results about the pointers are for handles released by the
  destructor or by `operator=`.
* A pass that reads a clock from before a timer's start moves the timer's deadline but not its multimap key. That
  happens when the clock goes back, and also with a clock that only rises: the timer thread reads the clock first and
  takes the lock later, and a timer registered in between is moved (`TimerLaws.RisingClockIsNotEnough`). Passes stay
  exact all through a run exactly when no pass stops at such a timer (`TimerLaws.ExactRunIff`).
* `register.game` from a session that is registered already leaves its old membership behind, unless it is given
  the very seat it has: `TankLaws.LoginKeepsRegistryIff`; `TankLaws.RegisteredTwice` shows it from the empty server.
* `strptime` reads `%D`, `%R` and `%T` more loosely than their expansions: a missing separator is no failure, and
  an empty number after the last separator counts as 0. `TimeLaws.CompoundIsExpansionIff` says where they agree, `TimeText.LooseHourMinute` shows it on a text.
  `%r` looks at the word am or pm but leaves it unread, while its expansion reads it: `TimeConversions.Clock12RoundTrip`
  and `Clock12ByPartsRoundTrip`.
* `fromScriptArgToLua` and `toScriptArg` of Lua lose floats, nested nulls, empty dicts, texts and dict keys that
  read as numbers: `LuaLaws.LuaRoundTripIff`. A null pointer among the arguments of a call leaves values on the
  stack: `LuaCall.BalancedIff`.
* `PyString_AsString` drops what follows a NUL in a dict key: `Python.PythonRoundTripIff`. PHP has the same fault
  (`s_key` is read as a C string), and a dict with the keys "0" to "n-1" for n at most 10, the empty one included,
  comes back as a list: `Php.PhpRoundTripIff`.
* A CSV field that is empty or made of quotes alone gains a quote on loading, a delimiter inside quotes still splits,
  and so do line breaks; a line feed in the first row even changes what counts as one: `CsvLaws.TableRoundTripIff`.
* `split` does not undo a join when a part is empty, holds the separator or overlaps it: `CsvLaws.SplitUndoesJoinIff`.

## Model

| member | source | states |
|---|---|---|
| SmartPtrSteps.KeepInv | fflib/base/smart_ptr.h:95-274 | every atomic step of copy, assignment, destruction and lock() by any thread (explicit reset() apart, see below) keeps the ledger of both counts, the spin-lock discipline and the shapes of all handles; blocks stay and the dead stay dead |
| SmartPtrLaws.RunKeepsInv | fflib/base/smart_ptr.h:95-274 | the same for every finite run of any number of threads |
| SmartPtrLaws.CountsAreOwners | fflib/base/smart_ptr.h:95-129 | strong count = live SharedPtrs + claims in progress + probing locks, and probing locks exist only while the object is dead; weak count = every handle of either kind, settled or being taken apart |
| SmartPtrLaws.LiveHandleProtects | fflib/base/smart_ptr.h:113-143 | while a SharedPtr points at an object it has not been deleted, its block is not freed, and no thread is about to delete it |
| SmartPtrLaws.NoUseAfterFree | fflib/base/smart_ptr.h:113-129 | no thread's next step touches a freed control block; a thread is blocked only on the spin lock, by another thread that can go on |
| SmartPtrLaws.DeletedExactlyOnce | fflib/base/smart_ptr.h:113-129 | at most one delete and one free ever, never with an owner left; when all threads rest, exactly one if and only if no handle is left |
| SmartPtrLaws.NoRevival | fflib/base/smart_ptr.h:216-234 | an object without a strong owner never has one again in any continuation, however many threads lock() |
| SmartPtrLaws.LockDecides | fflib/base/smart_ptr.h:223-233 | a thread in lock() that is at its increment succeeds if and only if a strong owner exists then; at the construction of the result the object is not deleted (for the whole call: SmartPtrEffects.LockDelivers) |
| SmartPtrEffects.LockDelivers | fflib/base/smart_ptr.h:216-234 | from the call of lock() to its return, in every run of any number of threads: if both fields of the WeakPtr are set, the call reaches the increment; if the object has a strong owner then, the result is a SharedPtr to it; otherwise the result is the null pointer and the m_dest_ptr of the WeakPtr is cleared; with a field unset it is the null pointer at once |
| SmartPtrEffects.LockTells | fflib/base/smart_ptr.h:216-234 | the same without looking inside the call: on an object that is dead before it, the result is null; if another SharedPtr to the object exists when it returns, the result is a SharedPtr to it |
| SmartPtrEffects.ConstructDelivers | fflib/base/smart_ptr.h:95-105 | in every run a copy is done with the kind asked for and the fields its source had when it was read |
| SmartPtrEffects.AssignDelivers | fflib/base/smart_ptr.h:157-173 | in every run an assignment is done with the target of the same kind and with the fields its source had when it was read, after the old value was given up; assignment to itself changes nothing |
| SmartPtrEffects.ReleaseDelivers | fflib/base/smart_ptr.h:107-129 | in every run a destructor that is done has removed its handle |
| SmartPtrEffects.CanComplete | fflib/base/smart_ptr.h:95-274 | a busy thread that does not wait for the spin lock can complete by at most seven steps of its own |
| SmartPtrLaws.ResetVersusRelease | fflib/base/smart_ptr.h:107-129 | reset() and the destructor lead to the same state but for the handle, which reset() keeps with the pointers it did not clear |
| SmartPtrLaws.ResetThenDestroyIff | fflib/base/smart_ptr.h:107-129 | in every reachable state, reset() and then the destructor is the destructor alone if and only if the handle is the last of its kind: strong count 1 for a SharedPtr, weak count 1 for a WeakPtr |
| SmartPtrLaws.ResetKeepsLedgersIff | fflib/base/smart_ptr.h:113-129 | reset() keeps the ledger of every block if and only if the handle is the last of its kind |
| SmartPtrLaws.ResetLeavesAUsableHandleIff | fflib/base/smart_ptr.h:235-246 | the handle may go on being used in any way (the whole invariant holds) if and only if the weak count is 1 as well |
| SmartPtrLaws.ResetThenDestroyDeletesTooEarly | fflib/base/smart_ptr.h:107-129 | with n > 1 SharedPtrs, reset() of one and then the destructors of n - 1, that one included, delete the object under the last |
| SmartPtrLaws.ResetThenDestroyFreesTooEarly | fflib/base/smart_ptr.h:209-246 | with n > 1 weak units, reset() of a WeakPtr and then the destructors of n - 1 handles, that one included, free the block under the last handle |
| SmartPtrLaws.ResetThenCopyTouchesFreed | fflib/base/smart_ptr.h:190-198 | after reset() of the last SharedPtr and the destructors of all WeakPtrs, a WeakPtr made from the reset handle goes on to touch the freed block |
| SmartPtrLaws.TwoOwnersExample | fflib/base/smart_ptr.h:95-129 | a reachable state with two SharedPtrs where the object is deleted under the second |
| SmartPtrLaws.WeakExample | fflib/base/smart_ptr.h:190-246 | a reachable state with a SharedPtr and a WeakPtr where the block is freed under the SharedPtr |
| SmartPtrLaws.CopyExample | fflib/base/smart_ptr.h:113-198 | the same state, where a copy of the reset SharedPtr touches the freed block |
| TaskQueue.KeepInv | fflib/base/task_queue.h:32-100 | every step of producers, closers and the consumer keeps mutual exclusion, the histories and the wake-up condition |
| TaskQueue.Conservation | fflib/base/task_queue.h:49-100 | until the consumer is done, accepted = executed ++ rest of the batch ++ queued, in order; over every run with close(), executed is a prefix of accepted (what gets accepted: TaskQueueEffects.PostCompletes) |
| TaskQueue.NoDuplicates | fflib/base/task_queue.h:78-96 | distinct posted tasks are executed at most once each |
| TaskQueue.HistoryGrows | fflib/base/task_queue.h:32-100 | accepted and executed only ever grow, and a closed queue stays closed |
| TaskQueue.BatchRunsToEnd | fflib/base/task_queue.h:85-97 | whatever close() does, between batches and at the end every task taken has been executed |
| TaskQueue.NoLostWakeup | fflib/base/task_queue.h:54-76 | a consumer in the wait set with the mutex free means an empty list and the flag up; otherwise the holder of the mutex is about to signal |
| TaskQueue.ShutdownProgress | fflib/base/task_queue.h:32-47 | with the flag down every consumer step decreases a well-founded measure and no other step increases it |
| TaskQueue.ShutdownRuns | fflib/base/task_queue.h:32-47 | in every run after close() the number of consumer steps is bounded, by its phases and one for each task in its batch, in the list or about to be pushed; each step brings its end nearer |
| TaskQueue.ShutdownEnabled | fflib/base/task_queue.h:64-100 | no deadlock after close(): the consumer can step, or the holder of the mutex can and gets nearer to releasing it |
| TaskQueue.CloseTerminates | fflib/base/task_queue.h:32-47 | from every state after close() there is a run of the consumer and the clients in its way that ends the consumer and lets every join return |
| TaskQueueEffects.AcceptedIsPushed | fflib/base/task_queue.h:49-62 | over every run, the accepted tasks are those before it and then those its posts push, in order |
| TaskQueueEffects.PostCompletes | fflib/base/task_queue.h:49-62 | in every run, a post() that finds the flag up has, when it returns, pushed its task exactly once; one that finds it down pushes nothing |
| TaskQueueEffects.PostAlone | fflib/base/task_queue.h:49-62 | an uninterrupted post() to an open queue ends in six steps with the task last in the list, a waiting consumer woken, and nothing else changed |
| TaskQueueEffects.CloseCompletes | fflib/base/task_queue.h:32-47 | in every run, when a close() that found the flag up returns, the flag is down and the consumer has ended |
| TaskQueueEffects.RunsWhileOpen | fflib/base/task_queue.h:85-100 | while the flag is up the consumer has not left its loop |
| TaskQueueEffects.TasksAreExecuted | fflib/base/task_queue.h:64-100 | from every reachable state of an open queue a run of the consumer, and of the clients in its way, executes everything accepted so far |
| TimerService.TimerService.AddTimer | fflib/base/timer_service.h:128-155 | while running, one registration is appended to the pending list with a new id and its deadline; otherwise nothing changes |
| TimerService.TimerService.AddNewTimer | fflib/base/timer_service.h:197-206 | the pending list is inserted into the multimap, each element behind those with the same key, and emptied |
| TimerService.TimerService.CheckTimeout | fflib/base/timer_service.h:68-78 | true if and only if due; otherwise the element is rewound when the clock is behind its start, and its key is not |
| TimerService.TimerService.AddTimers | fflib/base/timer_service.h:128-155 | registrations made while a callback runs, or between the clock reading and the insertion, only reach the pending list |
| TimerService.TimerService.ProcessTimerCallback | fflib/base/timer_service.h:216-241 | one pass fires a prefix of the multimap, puts loop timers back on the pending list, and erases exactly what fired |
| TimerService.TimerService.Tick | fflib/base/timer_service.h:157-179 | a turn of the loop: the clock is read, others may register, the pending list is inserted, and one pass is made with the earlier reading; a stopped service does nothing |
| TimerService.TimerService.Stop | fflib/base/timer_service.h:111-127 | both containers are emptied and no timer is accepted any more |
| TimerLaws.ScanStops | fflib/base/timer_service.h:221-235 | the pass fires due elements up to the first that is not, changes of the multimap at most that element's times, and so ends even if callbacks register timers without delay |
| TimerLaws.InsertOrdered | fflib/base/timer_service.h:203-203 | insertion keeps the multimap ordered by key, with equal keys in the order of registration |
| TimerLaws.KeepRewind | fflib/base/timer_service.h:73-76 | rewinding keeps the interval tmEnd - tmStart and moves no deadline past its key |
| TimerLaws.TickFiresExactlyTheDue | fflib/base/timer_service.h:216-241 | while keys equal deadlines, a pass fires exactly the due timers, earliest deadline first, ties in registration order |
| TimerLaws.OnlyDueFires | fflib/base/timer_service.h:70-78 | with no assumption on the keys, only due timers fire and the pass stops at one that is not due |
| TimerLaws.StaysSyncedIff | fflib/base/timer_service.h:68-78 | keys and deadlines stay equal if and only if the reading of the pass is not before the start of the timer it stops at |
| TimerLaws.ExactNextIff | fflib/base/timer_service.h:216-241 | whatever is registered and whenever it comes, the next pass is sure to be exact if and only if every key is the deadline |
| TimerLaws.ExactRunIff | fflib/base/timer_service.h:157-241 | for every run and any clock: passes stay exact all through it if and only if no pass stops at a timer started after that pass's reading |
| TimerLaws.ForwardRunIsClean | fflib/base/timer_service.h:173-177 | that is so when readings only rise and nobody reads the clock between a reading of the timer thread and its insertion and registers before the insertion |
| TimerLaws.RisingClockIsNotEnough | fflib/base/timer_service.h:173-199 | a run whose readings only rise: a registration falls between reading and insertion, a deadline that has come is passed over, and two timers fire in the wrong order and too early |
| TimerLaws.ForwardTicksAreExact | fflib/base/timer_service.h:157-241 | in every run with rising readings and no such registration, each tick fires exactly the stored timers that are due, in order, and leaves only timers that are not |
| TimerLaws.ProcessIds | fflib/base/timer_service.h:216-241 | a pass neither loses nor repeats a timer: alive before plus issued = alive after plus fired |
| TimerLaws.RunConserves | fflib/base/timer_service.h:128-241 | the same over every run, for arbitrary clocks |
| TimerLaws.EveryTimerOnce | fflib/base/timer_service.h:128-241 | whatever the clock does, every id ever issued is at any time either waiting once or has fired once |
| TimerLaws.LoopTimersStayAlive | fflib/base/timer_service.h:231-234 | a pass of a running service leaves each loop timer, taken as callback and interval, as many live entries as before, plus those newly asked for |
| TimerLaws.LoopTimersLiveForEver | fflib/base/timer_service.h:128-141 | over every run, each loop timer asked for has exactly one live entry, with the interval originally asked for however often it was put back |
| TimerLaws.IntervalsAreKept | fflib/base/timer_service.h:61-84 | over every run, each waiting entry has the callback, the kind and the interval registered under its id; a stored one has the deadline as registered for key, and its tmEnd never exceeds the key; a pending one starts at the reading of its registration |
| TimerLaws.PassRegisters | fflib/base/timer_service.h:128-141 | a pass of a running service registers, in order, what each callback asks for and then, if it was a loop timer, that timer again with its interval from the clock after the callback; nothing else reaches the pending list |
| TimerLaws.LoopRestarts | fflib/base/timer_service.h:231-234 | each loop timer that fires waits again afterwards, with its callback, starting at the clock read after the callback and due one interval later |
| TimerLaws.StoppedServiceIsSilent | fflib/base/timer_service.h:111-133 | once stopped, no run of registrations and turns changes anything or fires a timer |
| TankMap.StepRange | main.py:241-252 | the loop gives the samples from minNum by 0.1 and, last, maxNum |
| TankMap.AxisExact | main.py:241-252 | on one axis, some sample lies in an open interval wider than 0.1 if and only if the closed range meets it |
| TankMap.GridExact | main.py:335-339 | in the plane, the grid hits the open interior of a block if and only if the closed square meets it |
| TankMap.BlocksAreWide | main.py:190-240 | every configured block has both sides at least 1, inside the map |
| TankMap.SearchGrid | main.py:335-339 | the two inner loops find a grid point in the interior of a block if and only if there is one |
| TankMap.IsBlock | main.py:320-341 | for every real position and non-negative radius the grid search is true if and only if the square leaves the open map or meets the interior of a block |
| TankServer.TankServer.AllocMap | main.py:350-359 | a map with room if there is one, otherwise a new empty map under a new id |
| TankServer.TankServer.AllocTeam | main.py:286-292 | the first of the smallest teams |
| TankServer.TankServer.AllocTankId | main.py:299-307 | the smallest positive number below 100 no player of the map has |
| TankServer.TankServer.TakeSeat | main.py:263-307 | the player joins the map and the chosen team, at the team's spawn point, under the free id |
| TankServer.TankServer.Login | main.py:377-387 | the whole new state of a registration, at a map that can host |
| TankServer.TankServer.OnSessionOffline | main.py:491-502 | the player leaves the registry, its map and the teams of that map |
| TankServer.TankServer.HandleMove | main.py:406-417 | true if and only if the player is registered and the square at the summed coordinates is free; then exactly those coordinates are stored, with the seat, all other records and the maps as they were; otherwise nothing changes |
| TankLaws.MoveMoves | main.py:406-417 | a move puts a registered tank whose new square is free at exactly the summed coordinates; map, team and id, all other players and all maps stay; a blocked or unknown mover changes nothing |
| TankLaws.LeaveLeaves | main.py:491-502 | a departure removes the record, takes the session out of its map and teams, and changes nothing else |
| TankLaws.LoginShape | main.py:377-387 | a registration stores exactly one record, with the first of the smallest teams, the smallest free id and the spawn point of that team, adds the session to the map and that team, and changes nothing else |
| TankLaws.FreeIdIsSmall | main.py:299-307 | pigeonhole: with fewer than 12 positive ids taken, the smallest free id is at most 12 |
| TankLaws.LoginKeepsRegistryIff | main.py:468-485 | registration keeps the registry sound if and only if the session is unregistered or gets the seat it has |
| TankLaws.StaleMembership | main.py:477-483 | in the other cases the registry is broken: the old membership stays |
| TankLaws.RegisteredTwice | main.py:377-400 | from the empty server, a session that registers twice is in two teams |
| TankLaws.OfflineKeepsRegistry | main.py:491-502 | leaving keeps the registry sound and no map remembers the session |
| TankLaws.SpawnsAreSafe | main.py:9-14 | a tank at any of the four spawn points touches neither border nor block |
| TankLaws.RunKeeps | main.py:377-502 | registry and position safety are kept by every run of registrations, moves and departures |
| TankLaws.EverySessionIsSeatedOnce | main.py:377-400 | over every run each session is in exactly one map and exactly one of its four teams, and no map exceeds 12 |
| TankLaws.TankIdsAreDistinct | main.py:299-307 | over every run ids in a map are pairwise distinct and in 1..12 |
| TankLaws.TanksNeverOverlapBlocks | main.py:406-417 | over every run each tank's square of half-width 0.5 is strictly inside the map and meets no block |
| TankLaws.JoinOnlyStaysBalanced | main.py:286-298 | while sessions only join, team sizes in every map differ by at most one |
| TankBullet.Bullet.Distance | main.py:29-30 | the distance to the target, from a square root with its defining equations |
| TankBullet.Bullet.Advance1 | main.py:64-72 | one tick moves the bullet 0.7 on along its line; the normalisation divides by a distance of at least 1 |
| TankBullet.Bullet.OneTick | main.py:65-89 | one tick, and removal if and only if the bullet is near its target, off the map, in a block or hits |
| TankBullet.Bullet.Update | main.py:53-90 | the ticks advanced and the removal are those of the tick-by-tick flight, and the position is the exact point on the line |
| TankBullet.DistanceLeft | main.py:65-72 | after k ticks the distance to the target is exactly 16 - 0.7k |
| TankBullet.LiveDistance | main.py:75-78 | a bullet not removed is at distance at least 1, before tick 22 |
| TankBullet.FliesWhileClear | main.py:64-90 | at every tick before the last the bullet is strictly inside the map, at least 1 from its target, off every block and hits no tank; it is removed if and only if one of these fails at the last tick, and otherwise flies all its ticks |
| TankBullet.AdvanceSplit | main.py:56-64 | with the same answers of checkHitTank at each tick, splitting the ticks over several updates makes no difference |
| TankBullet.FlightEnds | main.py:53-90 | however ticks are spread over updates, the bullet is gone no later than tick 22 |
| TimeParse.StrpAtoi | fflib/base/time_tool.h:54-66 | a number within the limits is stored with its offset and consumed; otherwise nothing changes |
| TimeParse.FindName | fflib/base/time_tool.h:88-104 | the first name, in full or by three letters, sets the field and the position; none sets -1 and fails |
| TimeParse.Numbers | fflib/base/time_tool.h:134-153 | the nested ifs read numbers as long as separators follow |
| TimeParse.Clock | fflib/base/time_tool.h:190-225 | the 12-hour clock with am or pm, position restored on failure |
| TimeParse.ConvertAt | fflib/base/time_tool.h:81-278 | each conversion character leaves the position, fields and success of its conversion |
| TimeParse.OneTurn | fflib/base/time_tool.h:74-300 | a turn of the loop does one format element and reads neither string past its terminator |
| TimeParse.StrpTime | fflib/base/time_tool.h:67-302 | for every format and text the loop ends, writes the fields and returns the end of the match, or nothing, as the token-by-token reading of the format does |
| TimeLaws.StrpTimeKeepsRange | fflib/base/time_tool.h:67-302 | for every format and text, from a time in range, success leaves all eight fields in range; after a failure only month and week day may be -1 |
| TimeLaws.ConversionsFit | fflib/base/time_tool.h:130-270 | the limits and offsets of every numeric conversion fit the range of its field |
| TimeLaws.ChainIsExpansionIff | fflib/base/time_tool.h:226-259 | any chain of numbers agrees with its expansion if and only if a condition on separators and the end of the text holds |
| TimeLaws.CompoundIsExpansionIff | fflib/base/time_tool.h:134-153 | %D, %R and %T give the same match and fields as their expansions exactly under that condition |
| TimeLaws.DateTokens | fflib/base/time_tool.h:134-134 | the literal format %m/%d/%y reads as the expansion of %D |
| TimeLaws.TimeTokens | fflib/base/time_tool.h:242-242 | the literal format %H:%M:%S reads as the expansion of %T |
| TimeLaws.HourMinuteTokens | fflib/base/time_tool.h:226-226 | the literal format %H:%M reads as the expansion of %R |
| TimeLaws.NamesAreFound | fflib/base/time_tool.h:83-129 | any day or month name, in any case, in full or by three letters, gives just its own number |
| TimeConversions.StrtoulReads | fflib/base/time_tool.h:56-58 | white space, a sign or none and digits are read to their end, as the value, as 2^32 minus the value after a minus sign, or as 2^32 - 1 if it does not fit |
| TimeConversions.ClockNumbers | fflib/base/time_tool.h:154-241 | %S, %M, %H and %I store a printed number in their field if it is at most 60, at most 59, at most 23, or 1 to 12; otherwise nothing changes |
| TimeConversions.DateNumbers | fflib/base/time_tool.h:130-270 | %d and %e store 1 to 31, %m 1 to 12 less one, %Y 1900 to 65535 less 1900, %y 0 to 99, with 100 added below 69; otherwise nothing changes |
| TimeConversions.DayNumbers | fflib/base/time_tool.h:160-262 | %w stores 0 to 6 and %j 1 to 366 less one; otherwise nothing changes |
| TimeConversions.NamesAreStored | fflib/base/time_tool.h:83-129 | %a, %A, %b, %B and %h set the week day or month whose name or three letters stand there, and pass over them |
| TimeConversions.WordInAnyCase | fflib/base/time_tool.h:90-121 | a word is recognised if and only if each of its letters stands there, small or capital |
| TimeConversions.BlanksAreSkipped | fflib/base/time_tool.h:169-173 | %n, %t and a blank in the format pass over white space up to the first other character, however much there is |
| TimeConversions.PercentIsMatched | fflib/base/time_tool.h:271-275 | %% succeeds if and only if a percent sign stands there, and passes over the character either way |
| TimeConversions.UnknownLetterFails | fflib/base/time_tool.h:276-278 | a letter without a meaning fails and changes nothing |
| TimeConversions.MeridiemTellsTheHour | fflib/base/time_tool.h:174-189 | for each hour of the day: %p turns the hour a twelve-hour clock shows into that hour, by am before noon and pm from noon on |
| TimeConversions.Clock12RoundTrip | fflib/base/time_tool.h:190-225 | %r reads any time of day printed as %I:%M:%S %p back as hour, minute and second, and stops before the word am or pm |
| TimeConversions.Clock12ByPartsRoundTrip | fflib/base/time_tool.h:157-241 | the literal format %I:%M:%S %p reads the same time, and the word with it |
| TimeText.ReadsYear | fflib/base/time_tool.h:58-62 | a printed year is read as itself, a negative one as 2^32 minus its amount |
| TimeText.ReadsParts | fflib/base/time_tool.h:42-52 | any pattern of separators and two-digit numbers reads back the text printed for it |
| TimeText.FormatTmIs | fflib/base/time_tool.h:47-49 | the printed text: the year, then a separator and two digits five times |
| TimeText.LooseHourMinute | fflib/base/time_tool.h:226-238 | on 12-30, %R reads the hour and succeeds while %H:%M fails |
| TimeText.FormatTextIs | fflib/base/time_tool.h:306-306 | the format of str2time, spelled out |
| TimeText.DateRoundTripIff | fflib/base/time_tool.h:42-309 | strptime of what formattm printed succeeds if and only if the year is 1900 to 65535, and then consumes all of it and restores the six fields |
| LuaStack.LuaState.SetTable | workerlua/ffworker_lua.cpp:166-168 | the table below key and value changes in place, nil removing the key, and both are popped |
| LuaStack.LuaState.Next | workerlua/ffworker_lua.cpp:84-105 | the key on top gives way to the next key and its value in the order of traversal, or is popped at the end |
| LuaStack.FollowNext | workerlua/ffworker_lua.cpp:92-92 | keys are distinct, so a traversal visits each index once |
| LuaConvert.TestKeys | workerlua/ffworker_lua.cpp:86-109 | the first traversal says list if and only if the i-th key reads as a number that truncates to i, and restores the stack |
| LuaConvert.Fill | workerlua/ffworker_lua.cpp:110-132 | the second traversal yields the items, or the entries with keys as text, and restores the stack |
| LuaConvert.ToScriptArg | workerlua/ffworker_lua.cpp:55-145 | at any valid position, positive or negative, the result is the pure decoding of the value there and the stack is unchanged |
| LuaConvert.PushArg | workerlua/ffworker_lua.cpp:146-184 | exactly one value is pushed, the pure encoding |
| LuaConvert.FromScriptArgToLua | workerlua/ffworker_lua.cpp:146-152 | a null pointer pushes nil and throws; any other pushes its encoding |
| LuaConvert.PushLuaArgs | workerlua/ffworker_lua.cpp:206-211 | the encodings of the arguments in order, up to the first null pointer |
| LuaLaws.LuaRoundTripIff | workerlua/ffworker_lua.cpp:55-184 | decoding the encoding of any value gives the value back if and only if it survives: exact integers, no floats or functions, texts that are no numbers, nothing null inside, no dict that traverses as a list |
| LuaLaws.PlainRoundTrip | workerlua/ffworker_lua.cpp:55-184 | for every traversal order, values whose dicts each have a key that is no index come back |
| LuaLaws.FloatsAreCut | workerlua/ffworker_lua.cpp:57-66 | no decoded value holds a float: the branch for floats is never taken |
| LuaLaws.ListGetsShorter | workerlua/ffworker_lua.cpp:162-169 | a list with a null or function item never comes back |
| LuaLaws.SpellingsAgree | workerlua/ffworker_lua.cpp:57-82 | a boolean decodes as 1 or 0, a text that reads as a number as that number, any other text as itself, everything unknown as null |
| LuaLaws.NumbersAreCut | workerlua/ffworker_lua.cpp:57-66 | every number decodes as the integer next to it towards zero |
| LuaLaws.LostOnTheWay | workerlua/ffworker_lua.cpp:55-157 | a float comes back as its integer part, and a text that reads as a number as the integer part of that |
| LuaLaws.TableIsListIff | workerlua/ffworker_lua.cpp:83-116 | any table decodes as a list if and only if its keys in order of traversal are, or read as, numbers that are cut to 1, 2, 3 and so on; then item by item |
| LuaLaws.TableIsDecoded | workerlua/ffworker_lua.cpp:111-128 | any other table, with keys of any kind, decodes as the dict filled by its entries in order of traversal, keys as text |
| Script.FilledByLast | workerlua/ffworker_lua.cpp:117-125 | in a dict filled entry by entry each text has the value of the last entry with it, and nothing else is in it |
| LuaCall.FindFunction | workerlua/luaops.h:736-763 | the callee is pushed, or the call ends with the stack as it was |
| LuaCall.Call | workerlua/luaops.h:729-784 | the exit taken and the stack left, for every answer of the interpreter |
| LuaCall.BalancedIff | workerlua/luaops.h:729-784 | the stack after a call, normal or throwing, is the stack before if and only if no argument is a null pointer or the callee was not found |
| LuaCall.ExitsIff | workerlua/luaops.h:736-775 | each way out of a call, by what the interpreter answers and whether an argument is a null pointer |
| LuaCall.EchoIff | workerlua/luaops.h:729-784 | a function that gives back one of its arguments returns the value that was passed if and only if that value survives the conversions |
| Python.ToScriptArg | workerpy/ffworker_python.cpp:461-523 | equals the pure decoding, for which SpellingsAgree, ListIsDecoded and DictIsDecoded say what every Python value becomes |
| Python.FromScriptArgToPy | workerpy/ffworker_python.cpp:525-562 | equals the pure encoding; None for a null pointer |
| Python.PythonRoundTripIff | workerpy/ffworker_python.cpp:461-562 | a value comes back if and only if it holds no function and no dict key with a NUL |
| Python.TextsAreCut | workerpy/ffworker_python.cpp:516-519 | no key of a decoded dict holds a NUL |
| Python.SpellingsAgree | workerpy/ffworker_python.cpp:463-507 | an int decodes as the long of the same value, a bool as the long 1 or 0, a tuple as the list of its items, anything unknown as None does |
| Python.ListIsDecoded | workerpy/ffworker_python.cpp:488-507 | a list or tuple of any values decodes item by item |
| Python.DictIsDecoded | workerpy/ffworker_python.cpp:508-521 | a dict with keys of any kind decodes as the dict filled by its entries in order of traversal |
| Python.KeyTexts | workerpy/ffworker_python.cpp:516-518 | the text of a key is the string, or str() of any other key, up to its first NUL |
| Php.Classify | workerphp/ffworker_php.cpp:988-1004 | dict if and only if the keys in traversal order are not 0 to n-1 |
| Php.ToScriptArg | workerphp/ffworker_php.cpp:964-1033 | equals the pure decoding |
| Php.FromScriptArgToScript | workerphp/ffworker_php.cpp:1035-1069 | equals the pure encoding, entries in key order and numeric keys as integers; nothing for a null pointer |
| Php.EntriesAreCounted | workerphp/ffworker_php.cpp:1006-1029 | an array whose key texts differ becomes a dict of as many entries |
| Php.EntryIsKept | workerphp/ffworker_php.cpp:1022-1024 | and each text has the value of the last entry with it |
| Php.OnlyEntries | workerphp/ffworker_php.cpp:1011-1024 | and every key of the dict is the text of an entry |
| Php.ArrayIsDecoded | workerphp/ffworker_php.cpp:980-1030 | an array decodes as a list, item by item, if and only if its keys in traversal order are 0 to n-1; otherwise as the dict where each text has the value of the last entry with it and nothing else |
| Php.SpellingsAgree | workerphp/ffworker_php.cpp:966-979 | a bool decodes as the integer 1 or 0, anything unknown as null does |
| Php.KeyTexts | workerphp/ffworker_php.cpp:1012-1020 | a number key becomes its decimal text, a string key its text up to the first NUL |
| Php.AssocNew | workerphp/ffworker_php.cpp:28-31 | a new key goes last, and the keys of a dict are all new |
| Php.BecomesListIff | workerphp/ffworker_php.cpp:1058-1067 | an encoded dict reads as a list if and only if its keys are "0" to "n-1" with n at most 10 |
| Php.PhpRoundTripIff | workerphp/ffworker_php.cpp:964-1069 | a value comes back if and only if it holds no function, no key with a NUL and no such dict |
| KeyOrder.IncreasingIsSorted | workerphp/ffworker_php.cpp:1061-1063 | the order a std::map is walked in is the only increasing one |
| SqlEscape.PutByte | fflib/db/ffdb.cpp:127-172 | one byte is written escaped, or nothing if it does not fit |
| SqlEscape.EscapeString | fflib/db/ffdb.cpp:119-176 | the escaped text and its terminator if and only if they fit, otherwise the escape of the longest prefix that does |
| SqlEscape.FFDbEscape | fflib/db/ffdb.cpp:178-189 | the buffer of 2n+2 bytes never overflows |
| SqlEscape.ScanEscaped | fflib/db/ffdb.cpp:127-172 | a literal scanner passes over an escaped text and reads exactly it |
| SqlEscape.LiteralRoundTrip | fflib/db/ffdb.cpp:119-189 | scanning quote, escape, quote and more yields the text and the rest if and only if the rest does not start with a quote |
| SqlEscape.EscapeInjective | fflib/db/ffdb.cpp:119-176 | different texts have different escapes |
| SqlEscape.LiteralIsClosedIff | fflib/db/ffdb.cpp:119-189 | a MySQL reader of single quotes, one of double quotes, and a standard reader that knows no backslash all stop at exactly the closing quote if and only if the rest does not start with one |
| SqlEscape.SeenAsItself | fflib/db/ffdb.cpp:127-172 | between single quotes a MySQL reader sees every text as itself, and a standard reader every text in which only quotes were escaped |
| SqlEscape.EscapedIsPlain | fflib/db/ffdb.cpp:127-172 | no escaped text holds a NUL, a line feed, a carriage return or a Control-Z |
| Csv.FindInIsFirst | fflib/base/str_tool.h:41-41 | what find returns is an occurrence, and none is earlier |
| Csv.Split | fflib/base/str_tool.h:28-60 | the non-empty pieces between separators, after the leading separator characters |
| CsvLaws.SplitUndoesJoinIff | fflib/base/str_tool.h:28-60 | for any parts and separator, splitting the joined parts gives the parts if and only if none is empty, each but the last is followed by the first separator found from its start, the last holds none, and the first does not start with a separator character |
| CsvLaws.SealedPartsSplit | fflib/base/str_tool.h:28-60 | for parts that neither start nor end with a separator character, and with or without a trailing separator: the parts come back, or more pieces if one holds the separator |
| Csv.DecodeInPlace | fflib/base/str_tool.h:131-147 | the field as the loop leaves it: unquoted if it starts with a quote, any other as it was; CsvLaws.QuotedFieldLoadsAs and CsvPlain.PlainFieldLoadsAs say what that is |
| Csv.LoadCsvFromString | fflib/base/str_tool.h:115-151 | the rows are the decoded pieces of the lines, split at the line break the first line shows; CsvLaws.TableRoundTripIff, CsvPlain.MixedTableLoadsIff and CsvPlain.PlainTableLoadsIff say what comes back |
| CsvLaws.RunOfQuotes | fflib/base/str_tool.h:135-145 | a run of k quotes decodes to k / 2 of them |
| CsvLaws.QuotedFieldLoadsAs | fflib/base/str_tool.h:131-147 | a field written with quotes doubled loads as itself, with one quote more if it had nothing but quotes |
| CsvLaws.LinesComeBack | fflib/base/str_tool.h:116-124 | with no line feed in the first line, the lines of a written file come back, or more of them if one holds a line break, for both line breaks and with or without a last one |
| CsvLaws.RowRoundTripIff | fflib/base/str_tool.h:124-148 | a written row comes back if and only if no field holds the delimiter and none is of quotes alone |
| CsvLaws.LineContainsIff | fflib/base/str_tool.h:122-126 | a written line holds a line break if and only if one of its fields does |
| CsvLaws.FirstLineIsOne | fflib/base/str_tool.h:117-123 | whatever separator is guessed, the first line loaded holds no line feed |
| CsvLaws.TableRoundTripIff | fflib/base/str_tool.h:115-151 | loading a table written as section 2 of RFC 4180 says gives the table back if and only if no field holds the delimiter or is of quotes alone, the first row has no line feed, and no field holds the line break of the file |
| CsvPlain.CleanSplit | fflib/base/str_tool.h:28-60 | parts without a character of the separator come back from a join without the empty ones, with or without a trailing separator |
| CsvPlain.PlainFieldLoadsAs | fflib/base/str_tool.h:132-147 | a field written without quotes is loaded as itself if and only if it does not start with one |
| CsvPlain.MixedTableLoadsIff | fflib/base/str_tool.h:115-151 | a table without line breaks in its fields, each written with or without quotes, is loaded as it was if and only if no row is empty, no field holds the delimiter, no quoted one is of quotes alone, and no plain one is empty or starts with a quote |
| CsvPlain.PlainTableLoadsIff | fflib/base/str_tool.h:115-151 | lines of fields joined without any quoting are loaded as the table if and only if no row is empty and each field is non-empty, starts with no quote and holds no delimiter |
| CsvPlain.PlainExample | fflib/base/str_tool.h:115-151 | the file of the one line 10,sword is loaded as the fields 10 and sword |

## Left out

- SmartPtrSteps.KeepInv: the pointers are modelled on values, one state per interleaving point, so update in place and aliasing of handles are not captured; handles stored inside the objects they own (whose destruction would run while operator= is between its two halves) are not modelled, nor are casts between pointer types.
- SmartPtrLaws.NoUseAfterFree: memory is sequentially consistent; orderings weaker than that are not modelled. Handles are given to one operation at a time, as the source demands; two threads in one handle are not modelled.
- TaskQueue.Conservation: the queue is modelled on values for the sake of its interleavings. Spurious wake-ups are left out (the waiting loop would only go round once more), and so are a second close() racing the join, and a post that overlaps the unlocked clear of the list at line 98, which is a data race in the source; here that clear is one step.
- TaskQueue.CloseTerminates: tasks are opaque and end, and none closes its own queue.
- TimerService.TimerService.Tick: times are unbounded integers, so the overflow of 64-bit deadlines and the narrower keys of the multimap are not modelled; the clock, what registers timers meanwhile, and epoll are parameters. Stopping in the middle of a turn is not modelled.
- TankServer.TankServer.Login: messages, scores, hit points, shooting, respawn and JSON are left out; players are records in the registry instead of objects with weak references.
- TankMap.IsBlock: coordinates are real numbers; the rounding of repeated additions of 0.1 in floating point is not modelled.
- TankBullet.Bullet.Update: what checkHitTank answers is a parameter that depends on the tick and the place, so where the other tanks are is not modelled here; the square root is any function with its defining equations; bullets whose owner goes offline in flight are left out.
- TimeParse.StrpTime: the tm_isdst field, mktime and localtime are not part of this model; white space and letter case are those of the C locale; unsigned long has 32 bits, as on the only platform that compiles this code.
- TimeText.DateRoundTripIff: formattm is modelled from the broken-down time on, and its buffer of 512 bytes is far larger than any text it prints.
- LuaConvert.ToScriptArg: functions stored as callbacks, userdata beyond "some other value", tables as keys or shared between places, the size limit of the Lua stack, and numbers outside the 64-bit range are not modelled. Traversal order is a function of a table's contents, any one that lists every key once and the keys 1 to n in that order. Null pointers inside a list or dict are not modelled.
- LuaCall.Call: what the interpreter answers (look-ups, the required module, the protected call) is a parameter; conversion of the result to types other than ScriptArgObjPtr is left out.
- Python.ToScriptArg: integers outside the range of a C long, reference counts and exceptions of the interpreter are left out; keys that are no strings are opaque with an unknown text.
- Php.FromScriptArgToScript: the type a function value is left with is not set by the source, and is modelled as one that reads as null; Zend's memory and numeric strings beyond plain decimals in the long range are left out.
- Csv.Split: an empty separator, with which the source would not end, is excluded; trim, replace and utf8_words_num are easy members and left out.
- CsvLaws.SplitUndoesJoinIff: with a separator behind the last part only SealedPartsSplit is proved: a separator that is a repetition (such as two equal characters) can then come out right by accident.
- CsvLaws.TableRoundTripIff: records have at least one field, as RFC 4180 asks, and the delimiter holds neither a quote nor a line feed.
- CsvPlain.MixedTableLoadsIff: the delimiter is one character, and no field holds a carriage return or a line feed; line breaks between quotes are the subject of TableRoundTripIff.
- SqlEscape.FFDbEscape: the database drivers that take the text are not part of this model.
- Sockets, acceptors, connectors, the RPC layer, V8 glue, logging, daemon start-up and option parsing: foreign calls, I/O or plumbing.
- today_at_zero, next_month, ArgHelper, EventBus, PerfMonitor, TypeIdGenerator: they would only add easy members.
