/**
 * The arithmetic of the POSIX OS-thread layer: the absolute deadline of a timed
 * condition wait and the meaning of its return code, the CPU set of a thread's
 * affinity, the processor count and its cache.  The OS calls themselves are
 * replaced by their results, passed in as parameters.
 */
module OSThreads {

  import opened Options

  /** Time is a count of nanoseconds. */
  const TIME_RESOLUTION: nat := 1_000_000_000

  /** errno value of a timed wait that reached its deadline (Linux). */
  const ETIMEDOUT: int := 110

  /** Bits in a cpu_set_t (glibc). */
  const CPU_SETSIZE: nat := 1024

  const UINT32_LIMIT: nat := 0x1_0000_0000

  newtype uint32 = x: int | 0 <= x < 0x1_0000_0000

  // ---------------------------------------------------------------------------
  // timedWaitCondition
  // ---------------------------------------------------------------------------

  /** struct timespec. */
  datatype Timespec = Timespec(tvSec: int, tvNsec: int)

  function TimeToSeconds(t: int): int
    requires t >= 0
  {
    t / TIME_RESOLUTION
  }

  function SecondsToTime(s: int): int
  {
    s * TIME_RESOLUTION
  }

  function TimeToNS(t: int): int
  {
    t
  }

  /** The absolute deadline `timeout + now`, split into whole seconds and the
      nanoseconds left over. */
  function Deadline(timeout: int, now: nat): (ts: Timespec)
    requires timeout + now >= 0
    ensures ts.tvSec >= 0 && 0 <= ts.tvNsec < TIME_RESOLUTION
    ensures SecondsToTime(ts.tvSec) + ts.tvNsec == timeout + now
  {
    var t := timeout + now;
    var secs := TimeToSeconds(t);
    Timespec(secs, TimeToNS(t - SecondsToTime(secs)))
  }

  /** The result of timedWaitCondition for the wait's return code: false on
      ETIMEDOUT, true on 0; None for any other code, on which it aborts. */
  function CondWaitResult(ret: int): (r: Option<bool>)
    ensures r == Some(false) <==> ret == ETIMEDOUT
    ensures r == Some(true) <==> ret == 0
    ensures r == None <==> ret != 0 && ret != ETIMEDOUT
  {
    if ret == ETIMEDOUT then Some(false)
    else if ret == 0 then Some(true)
    else None
  }

  /** timedWaitCondition, with the clock reading `now` and the blocking wait
      `condTimedWait` (its return code for a given deadline) as parameters. */
  function TimedWaitCondition(timeout: int, now: nat, condTimedWait: Timespec -> int): (r: Option<bool>)
    requires timeout + now >= 0
    ensures var ts := Deadline(timeout, now);
            r == CondWaitResult(condTimedWait(ts)) &&
            SecondsToTime(ts.tvSec) + ts.tvNsec == timeout + now
  {
    CondWaitResult(condTimedWait(Deadline(timeout, now)))
  }

  // ---------------------------------------------------------------------------
  // setThreadAffinity
  // ---------------------------------------------------------------------------

  /** CPU i is in the set for "CPU n of m": one of n, n + m, n + 2m, ... below
      nproc, and representable in a cpu_set_t. */
  ghost predicate InAffinity(i: int, n: int, m: int, nproc: int)
  {
    n <= i < nproc && i < CPU_SETSIZE && m > 0 && (i - n) % m == 0
  }

  lemma MulNonNeg(x: int, m: int)
    requires x >= 0 && m >= 0
    ensures x * m >= 0
  {
  }

  /** Between two consecutive multiples of m there is no other. */
  lemma NoMultipleBetween(a: int, m: int, d: int)
    requires m > 0 && a % m == 0 && 0 < d < m
    ensures (a + d) % m == d
  {
    var q := a / m;
    var p := (a + d) / m;
    var r := (a + d) % m;
    assert a == q * m;
    assert a + d == p * m + r && 0 <= r < m;
    assert (p - q) * m == d - r;
    if p > q {
      MulNonNeg(p - q - 1, m);
    } else if p < q {
      MulNonNeg(q - p - 1, m);
    }
  }

  lemma NextMultiple(a: int, m: int)
    requires m > 0 && a % m == 0
    ensures (a + m) % m == 0
  {
    var q := a / m;
    var p := (a + m) / m;
    var r := (a + m) % m;
    assert a == q * m;
    assert a + m == p * m + r && 0 <= r < m;
    assert (q + 1 - p) * m == r;
    if q + 1 - p > 0 {
      MulNonNeg(q - p, m);
    } else if q + 1 - p < 0 {
      MulNonNeg(p - q - 2, m);
    }
  }

  /** setThreadAffinity's CPU set, for nproc from getNumberOfProcessors.  The
      loop ends only if m > 0 or it never runs.  CPU_SET ignores CPUs at or
      above CPU_SETSIZE. */
  method SetThreadAffinity(n: uint32, m: uint32, nproc: uint32) returns (cs: set<int>)
    requires m > 0 || n >= nproc
    requires nproc as int + m as int <= UINT32_LIMIT
    ensures forall i :: i in cs <==> InAffinity(i, n as int, m as int, nproc as int)
    ensures n >= nproc ==> cs == {}
  {
    ghost var first, step, limit := n as int, m as int, nproc as int;
    cs := {};
    var i: uint32 := n;
    while i < nproc
      invariant n <= i
      invariant i > n ==> m > 0
      invariant m > 0 ==> (i as int - first) % step == 0
      invariant forall j :: j in cs <==> InAffinity(j, first, step, limit) && j < i as int
      decreases nproc as int - i as int
    {
      if (i as int) < CPU_SETSIZE {
        cs := cs + {i as int};
      }
      ghost var at := i as int;
      forall j | at < j < at + step && InAffinity(j, first, step, limit)
        ensures false
      {
        NoMultipleBetween(at - first, step, j - at);
      }
      NextMultiple(at - first, step);
      i := i + m;
    }
  }

  // ---------------------------------------------------------------------------
  // getNumberOfProcessors
  // ---------------------------------------------------------------------------

  /** The CPU numbers below k. */
  function Below(k: nat): (s: set<nat>)
    ensures forall i :: i in s <==> 0 <= i < k
    ensures |s| == k
  {
    if k == 0 then {} else Below(k - 1) + {k - 1}
  }

  lemma MaskStep(mask: set<nat>, i: nat)
    ensures |mask * Below(i + 1)| == |mask * Below(i)| + if i in mask then 1 else 0
  {
    if i in mask {
      assert mask * Below(i + 1) == (mask * Below(i)) + {i};
    } else {
      assert mask * Below(i + 1) == mask * Below(i);
    }
  }

  /** The loop over an affinity mask: the number of CPUs set in its first
      CPU_SETSIZE positions. */
  method CountCpus(mask: set<nat>) returns (nproc: uint32)
    ensures nproc as int == |mask * Below(CPU_SETSIZE)|
    ensures nproc as int <= CPU_SETSIZE
  {
    nproc := 0;
    var i := 0;
    while i < CPU_SETSIZE
      invariant i <= CPU_SETSIZE
      invariant nproc as int == |mask * Below(i)|
      invariant nproc as int <= i
    {
      MaskStep(mask, i);
      if i in mask {
        nproc := nproc + 1;
      }
      i := i + 1;
    }
  }

  /** The answers of the platform-specific processor queries. */
  datatype Platform =
    | Darwin(threadCount: Option<uint32>, logicalCpu: Option<uint32>, ncpu: Option<uint32>)
      // sysctlbyname "machdep.cpu.thread_count", "hw.logicalcpu", "hw.ncpu"; None: failed
    | FreeBsd(cpusetCount: Option<uint32>, ncpu: Option<uint32>)
      // CPU_COUNT of cpuset_getaffinity, sysctlbyname "hw.ncpu"; None: failed
    | Sysconf(value: int)
      // sysconf(_SC_NPROCESSORS_ONLN) or (_SC_NPROCESSORS_CONF), -1 on failure
    | NoQuery

  /** sched_getaffinity's mask (None: not available or failed), then the platform. */
  datatype ProcessorQuery = ProcessorQuery(schedAffinity: Option<set<nat>>, platform: Platform)

  /** The processor count the platform-specific queries give, and whether
      getNumberOfProcessors goes on to store it in the cache. */
  datatype PlatformCount = PlatformCount(nproc: uint32, cached: bool)

  function QueryPlatform(p: Platform): (r: PlatformCount)
    ensures !r.cached <==> p.FreeBsd? && p.cpusetCount.Some?
    ensures p.NoQuery? ==> r.nproc == 1
    ensures p.Darwin? && p.threadCount.None? && p.logicalCpu.None? && p.ncpu.None? ==> r.nproc == 1
    ensures p.FreeBsd? && p.cpusetCount.None? && p.ncpu.None? ==> r.nproc == 1
    ensures p.Darwin? && p.threadCount.Some? ==> r.nproc == p.threadCount.value
    ensures p.Darwin? && p.threadCount.None? && p.logicalCpu.Some? ==> r.nproc == p.logicalCpu.value
    ensures p.Darwin? && p.threadCount.None? && p.logicalCpu.None? && p.ncpu.Some? ==> r.nproc == p.ncpu.value
    ensures p.FreeBsd? && p.cpusetCount.Some? ==> r.nproc == p.cpusetCount.value
    ensures p.FreeBsd? && p.cpusetCount.None? && p.ncpu.Some? ==> r.nproc == p.ncpu.value
    ensures p.Sysconf? ==> r.nproc as int == p.value % UINT32_LIMIT
  {
    match p
    case Darwin(threadCount, logicalCpu, ncpu) =>
      PlatformCount(
        if threadCount.Some? then threadCount.value
        else if logicalCpu.Some? then logicalCpu.value
        else if ncpu.Some? then ncpu.value
        else 1,
        true)
    case FreeBsd(cpusetCount, ncpu) =>
      if cpusetCount.Some? then PlatformCount(cpusetCount.value, false)
      else PlatformCount(if ncpu.Some? then ncpu.value else 1, true)
    case Sysconf(value) =>
      PlatformCount((value % UINT32_LIMIT) as uint32, true)  // long converted to uint32_t
    case NoQuery =>
      PlatformCount(1, true)
  }

  /** The cached processor count, nproc_cache. */
  class Processors {
    var nprocCache: uint32

    constructor ()
      ensures nprocCache == 0
    {
      nprocCache := 0;
    }

    /** getNumberOfProcessors.  A non-zero cache is returned as is; the mask
        path returns before the cache store. */
    method GetNumberOfProcessors(threaded: bool, q: ProcessorQuery) returns (nproc: uint32)
      modifies this
      ensures !threaded ==> nproc == 1 && nprocCache == old(nprocCache)
      ensures threaded && old(nprocCache) != 0 ==> nproc == old(nprocCache) && nprocCache == old(nprocCache)
      ensures threaded && old(nprocCache) == 0 && q.schedAffinity.Some? ==>
                nproc as int == |q.schedAffinity.value * Below(CPU_SETSIZE)| && nprocCache == 0
      ensures threaded && old(nprocCache) == 0 && q.schedAffinity.None? ==>
                nproc == QueryPlatform(q.platform).nproc &&
                nprocCache == (if QueryPlatform(q.platform).cached then nproc else 0)
    {
      if !threaded {
        return 1;
      }
      nproc := nprocCache;
      if nproc == 0 {
        if q.schedAffinity.Some? {
          nproc := CountCpus(q.schedAffinity.value);
          return;
        }
        var answer := QueryPlatform(q.platform);
        nproc := answer.nproc;
        if !answer.cached {
          return;
        }
        nprocCache := nproc;
      }
    }
  }

  /** osThreadIsAlive: POSIX offers no check, so every thread counts as alive. */
  function OsThreadIsAlive(id: nat): (alive: bool)
    ensures alive
  {
    true
  }
}
