# Thread-safety layer of the GHC runtime (Asterius build), modelled in Dafny

This project models five small pieces of the runtime system's thread-safety layer.
Each atomic instruction is one sequential step on a few words of memory.

- **Closure lock** (`closure_lock.dfy`, module `ClosureLock`). The info pointer in a heap
  object's header doubles as a spin lock. `reallyLockClosure` exchanges the `WHITEHOLE`
  sentinel into the header. It retries while the value exchanged out is `WHITEHOLE`, and
  yields the OS thread after every `SPIN_COUNT` failed attempts. `lockClosure`,
  `tryLockClosure` and the C-- `LOCK_CLOSURE` macro skip the exchange when one capability
  runs, and so does the non-threaded build. `unlockClosure` stores an info pointer back.
  What other threads store into the header while a caller spins is an explicit
  interleaving (`env`).
- **Retiring a ThrowTo message** (`messages.dfy`, module `Messages`).
  `doneWithMsgThrowTo` pushes the message's four pointer fields onto the capability's
  update remembered set when the non-moving write barrier is on. It then unlocks the
  header to `MSG_NULL`.
- **Timer tick** (`timer.dfy`, module `Timer`). `handle_tick` counts down to the next
  context switch of all capabilities. Through `recent_activity` it also decides when to
  wake the runtime for an idle GC or stop the timer. The pure step functions
  `CtxtSwitchTick` and `IdleTick` specify the class method `Timer.HandleTick`. The
  lemmas about many ticks use them.
- **Stable-pointer table** (`stable_ptr.dfy`, module `StablePtr`). `deRefStablePtr` is
  an unchecked indexed read. Free entries form a `NULL`-terminated chain through their
  `addr` fields.
- **OS-thread arithmetic** (`os_threads.dfy`, module `OSThreads`). This covers the
  deadline split and return-code mapping of `timedWaitCondition`, and the CPU set built by
  `setThreadAffinity`. It also covers the affinity-mask count and the cache of
  `getNumberOfProcessors`, and `osThreadIsAlive`. The OS calls' results are parameters.

Time is a count of nanoseconds (`TIME_RESOLUTION` = 10^9). Constants the code takes from
headers that are not part of this model use these values: `SPIN_COUNT` = 1000 (the
runtime's spin-lock header), `CPU_SETSIZE` = 1024 and `ETIMEDOUT` = 110 (glibc on Linux).

The comment at `rts/Timer.c:28-33` describes `stopTimer`/`startTimer` counting
`timer_disabled` up and down. The code in that file never writes `timer_disabled`, and the
four timer entry points have empty bodies. The model follows the code: `timer_disabled`
is only read, and the four stubs are no-ops.

## Model

| member | source | states |
|---|---|---|
| `ClosureLock.FirstFree` | ghc-asterius/autogen/SMPClosureOps.h:59-73 | the first exchange attempt that sees a header other than WHITEHOLE; every earlier attempt saw WHITEHOLE |
| `ClosureLock.SpinLock` | ghc-asterius/autogen/SMPClosureOps.h:58-73 | the exchange loop never hands back WHITEHOLE; on an unlocked header it hands back that header at once; it keeps spinning exactly when every attempt sees WHITEHOLE |
| `ClosureLock.LockResult` | ghc-asterius/autogen/SMPClosureOps.h:76-84 | with one capability or in the non-threaded build the lock hands back the current header; otherwise it never hands back WHITEHOLE; an unlocked header is always handed back unchanged |
| `ClosureLock.ReallyLockClosure` | ghc-asterius/autogen/SMPClosureOps.h:56-74 | threaded build: result as the spin loop, header left WHITEHOLE, one yield per SPIN_COUNT failed attempts; non-threaded build: hands back the header and leaves it unchanged |
| `ClosureLock.LockClosure` | ghc-asterius/autogen/SMPClosureOps.h:76-84 | fast path reads the header without writing it; slow path is reallyLockClosure and leaves WHITEHOLE |
| `ClosureLock.LockClosureCmm` | ghc-asterius/autogen/SMPClosureOps.h:15-26 | the C-- LOCK_CLOSURE macro makes the same fast/slow split and has the same result and final header as lockClosure |
| `ClosureLock.TryLockClosure` | ghc-asterius/autogen/SMPClosureOps.h:88-102 | fast path reads the header; otherwise it hands back NULL exactly when the header was already WHITEHOLE, else the old header, and leaves WHITEHOLE either way |
| `ClosureLock.UnlockClosure` | ghc-asterius/autogen/SMPClosureOps.h:120-124 | the header becomes exactly the given info and nothing else changes |
| `ClosureLock.LockThenUnlock` | ghc-asterius/autogen/SMPClosureOps.h:76-124 | locking and then unlocking with the info handed back restores the header the lock saw; on an unlocked header it restores the original header |
| `ClosureLock.HeldLockExcludes` | ghc-asterius/autogen/SMPClosureOps.h:58-73 | while the holder does not store a non-WHITEHOLE value, a slow-path locker keeps spinning and never gets in |
| `ClosureLock.AcquiresAfterRelease` | ghc-asterius/autogen/SMPClosureOps.h:61-63 | a spinning locker gets in at the first attempt after the holder's unlock and receives exactly the stored info |
| `Messages.Capability.UpdateRemembSetPushClosure` | ghc-asterius/autogen/Messages.h:32-35 | a push appends one pointer to the capability's remembered set |
| `Messages.MessageThrowTo.Fields` | ghc-asterius/autogen/Messages.h:32-35 | the four pointer fields in the order the barrier pushes them: link, source, target, exception |
| `Messages.DoneWithMsgThrowTo` | ghc-asterius/autogen/Messages.h:25-40 | requires the header to be WHITEHOLE unless one capability runs; afterwards the header is MSG_NULL; with the barrier on the remembered set grows by exactly the four fields in order, with it off it is unchanged |
| `Timer.CtxtSwitchTick` | rts/Timer.c:57-65 | with switching enabled the countdown drops by one, and at or below zero it reloads ctxtSwitchTicks with exactly one request; disabled, nothing changes; a countdown in range stays within 1..ctxtSwitchTicks |
| `Timer.IdleTick` | rts/Timer.c:73-112 | per state of recent_activity: YES goes to MAYBE_NO with the idle countdown loaded; MAYBE_NO counts nonzero countdowns down by one, and with both at zero goes to INACTIVE (wakeUpRts when threaded) or DONE_GC (stopTimer unless profiling asks otherwise); INACTIVE and DONE_GC stay put; at most one call, only on expiry |
| `Timer.IdleCountdownsStayNonNegative` | rts/Timer.c:105-108 | with non-negative flags, a tick never drives an idle countdown below zero |
| `Timer.Timer.constructor` | rts/Timer.c:35-44 | the statics start at zero |
| `Timer.Timer.HandleTick` | rts/Timer.c:52-113 | the new countdowns, activity and recorded calls are those of CtxtSwitchTick followed by IdleTick; timer_disabled is not written |
| `Timer.Timer.InitTimer` | rts/Timer.c:115-118 | changes nothing |
| `Timer.Timer.StartTimer` | rts/Timer.c:120-123 | changes nothing |
| `Timer.Timer.StopTimer` | rts/Timer.c:125-128 | changes nothing |
| `Timer.Timer.ExitTimer` | rts/Timer.c:130-133 | changes nothing |
| `Timer.CountdownToSwitch` | rts/Timer.c:60-64 | from countdown k, the next k - 1 ticks make no request and the k-th makes one and reloads the countdown |
| `Timer.ContextSwitchSchedule` | rts/Timer.c:38-65 | from the initial countdown 0, after 1 + m·ctxtSwitchTicks + j ticks (j below ctxtSwitchTicks) exactly m + 1 requests were made: on the first tick, then every ctxtSwitchTicks ticks |
| `Timer.QuietCountdown` | rts/Timer.c:105-108 | in MAYBE_NO the first max(idle, inter) ticks only count down, never below zero, and make no calls |
| `Timer.SettledStaysSettled` | rts/Timer.c:110-111 | in INACTIVE or DONE_GC any number of ticks changes nothing and makes no call |
| `Timer.IdleGcFiresOnce` | rts/Timer.c:67-112 | without new activity after YES, no idle trigger fires before max(idleGCDelayTime/tickInterval, inter) + 2 ticks, and from then on exactly one has fired, with at most one call |
| `StablePtr.DeRefStablePtr` | ghc-asterius/autogen/rts/StablePtr.h:31-39 | reads the addr field of entry sp, which must lie within the table; nothing is written |
| `StablePtr.DeRefLive` | ghc-asterius/autogen/rts/StablePtr.h:23-27 | in a well-formed table, dereferencing an entry in use yields its object |
| `StablePtr.DeRefFree` | ghc-asterius/autogen/rts/StablePtr.h:23-27 | dereferencing a free entry yields the next free entry, NULL for the last one |
| `StablePtr.FreeChainUnique` | ghc-asterius/autogen/rts/StablePtr.h:23-27 | the table and the head of the free list determine the free chain |
| `StablePtr.FreeChainBounded` | ghc-asterius/autogen/rts/StablePtr.h:23-29 | the free chain visits each entry at most once, so it is no longer than the table |
| `OSThreads.Deadline` | rts/posix/OSThreads.c:131-138 | the deadline timeout + now splits into seconds and 0 ≤ nanoseconds < 10^9 that add back up to it |
| `OSThreads.CondWaitResult` | rts/posix/OSThreads.c:140-148 | false exactly on ETIMEDOUT, true exactly on 0, abort on every other code |
| `OSThreads.TimedWaitCondition` | rts/posix/OSThreads.c:130-149 | the wait is given the split deadline and its return code is mapped as above |
| `OSThreads.SetThreadAffinity` | rts/posix/OSThreads.c:350-367 | the CPU set is exactly the i with n ≤ i < nproc, i < CPU_SETSIZE and (i − n) mod m = 0; empty when n ≥ nproc |
| `OSThreads.CountCpus` | rts/posix/OSThreads.c:289-296 | the count is the number of CPUs set among the first CPU_SETSIZE positions of the mask, so at most CPU_SETSIZE |
| `OSThreads.QueryPlatform` | rts/posix/OSThreads.c:300-326 | Darwin: the first of machdep.cpu.thread_count, hw.logicalcpu, hw.ncpu that answers gives the count, 1 when none does; FreeBSD: the cpuset CPU_COUNT, else hw.ncpu, else 1; sysconf's long is converted to uint32; no query gives 1; only the FreeBSD cpuset answer skips the cache |
| `OSThreads.Processors.GetNumberOfProcessors` | rts/posix/OSThreads.c:278-331 | a nonzero cache is returned as is; the mask count returns before the cache store; other answers are cached |
| `OSThreads.OsThreadIsAlive` | rts/posix/OSThreads.c:188-194 | always true |

## Left out

- `ClosureLock.ReallyLockClosure`: the source retries forever. The model retries only while the interleaving `env` lasts and reports `Spinning` when it runs out. The spin-yield structure and the yield count are kept.
- Memory ordering is not modelled: the atomicity of `xchg`, `RELEASE_STORE`, `ACQUIRE_LOAD`, `SEQ_CST_*` and `prim_write_barrier`. Each atomic operation is one sequential step. `busy_wait_nop` and the `PROF_SPIN` counters are not modelled. `yieldThread` is only counted.
- `Messages.DoneWithMsgThrowTo`: the contract speaks of the final state only. That all pushes precede the unlock is visible in the body but is not a stated property, because a sequential model has no observer of intermediate states.
- `Messages.Capability.UpdateRemembSetPushClosure`: modelled as a plain append. The body of `updateRemembSetPushClosure` is not part of this model.
- `OVERWRITING_CLOSURE`, `LDV_RECORD_CREATE` and `handleProfTick` are debug, profiling and external hooks, treated as no-ops.
- `sendMessage`, `executeMessage`, `messageBlackHole`, `blackHoleOwner` and `getStablePtr` have no body in these headers. They are not part of this model.
- `Timer.IdleTick`: the quotients `idleGCDelayTime / tickInterval` and `interIdleGCWait / tickInterval` are stored into a C `int` without modelling the narrowing conversion. The division itself truncates toward zero, as in C.
- `recent_activity` is set to `ACTIVITY_YES` by the scheduler, which is not part of this model. The timer's constructor takes its initial value.
- `OSThreads.Deadline`: requires a non-negative deadline. The conversion of a negative second count to `uint64_t` is not modelled.
- `OSThreads.TimedWaitCondition`: requires a non-negative deadline, as `Deadline` does. The blocking wait is a parameter that gives its return code.
- `OSThreads.SetThreadAffinity`: requires nproc + m ≤ 2^32, so `i += m` never wraps in 32 bits. With a larger m the source's loop variable wraps, and that is not modelled. The `sched_setaffinity` call is left out; the method returns the CPU set it would install.
- `OSThreads.QueryPlatform`: a failed `sysctlbyname` is taken to leave `nproc` unwritten.
- The rest of `rts/posix/OSThreads.c` calls the OS and is not modelled. This covers the condition, mutex and thread-local-key wrappers, and `createOSThread`, `forkOS_createThread`, `joinOSThread`, `interruptOSThread`, `shutdownThread` and `osThreadId`. It also covers the NUMA calls, `kernelThreadId`, and the Darwin and FreeBSD `setThreadAffinity` variants.
- `ghc-asterius/autogen/DerivedConstants.h`, `ghc-asterius/autogen/ghcplatform.h`, `ghc/lib/std/cbits/errUtils.h` and `nix/rts/rts.c` hold generated tables, platform macros, prototypes and start-up glue. They are not part of this model.
- The scheduler loop, run queues, MVars, STM and the garbage collector are not part of this model.
