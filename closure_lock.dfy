/**
 * The closure lock: the info pointer in a heap object's header doubles as a
 * spin lock.  Locking exchanges the header for the WHITEHOLE sentinel and hands
 * back the previous info pointer; unlocking stores an info pointer back.
 *
 * Every atomic instruction is one sequential step.  What other threads do to the
 * header while a caller spins is an explicit interleaving: between two exchange
 * attempts another thread may store a value into the header (its own unlock).
 */
module ClosureLock {

  import opened Options

  /** The values a header word can hold. */
  datatype Info =
    | WhiteHole             // stg_WHITEHOLE_info: "locked by someone"
    | MsgNull               // stg_MSG_NULL_info: a message that has been consumed
    | InfoTable(addr: nat)  // any other info table

  /** The build and the global capability count the lock functions consult. */
  datatype Rts = Rts(threaded: bool, nCapabilities: nat)

  /** Exchange attempts made between two yields of the OS thread. */
  const SPIN_COUNT: nat := 1000

  /** A heap object; only its header word matters here. */
  class Closure {
    var info: Info

    constructor (info: Info)
      ensures this.info == info
    {
      this.info := info;
    }
  }

  /** What a lock call hands back: the previous header, or (only when the
      modelled interleaving runs out first) the fact that it is still spinning. */
  datatype LockOutcome = Acquired(prev: Info) | Spinning

  /** The header after another thread's step `e` (None: it does nothing). */
  function StoredBy(e: Option<Info>, h: Info): Info
  {
    if e.Some? then e.value else h
  }

  /** The header seen by exchange attempt `k` of the spin loop, started on header
      `h0`: attempt 0 sees `h0`; every later attempt sees what the other threads
      stored over the WHITEHOLE the previous attempt left. */
  function Observed(h0: Info, env: seq<Option<Info>>, k: nat): Info
    requires k <= |env|
  {
    if k == 0 then h0 else StoredBy(env[k - 1], WhiteHole)
  }

  /** The first attempt, from `k` on, that sees a header other than WHITEHOLE
      (|env| + 1 when every remaining attempt sees WHITEHOLE). */
  function FirstFree(h0: Info, env: seq<Option<Info>>, k: nat): (j: nat)
    requires k <= |env| + 1
    ensures k <= j <= |env| + 1
    ensures forall i :: k <= i < j ==> Observed(h0, env, i) == WhiteHole
    ensures j <= |env| ==> Observed(h0, env, j) != WhiteHole
    decreases |env| + 1 - k
  {
    if k == |env| + 1 then k
    else if Observed(h0, env, k) != WhiteHole then k
    else FirstFree(h0, env, k + 1)
  }

  /** The outcome of the exchange loop of reallyLockClosure on header `h0`. */
  function SpinLock(h0: Info, env: seq<Option<Info>>): (r: LockOutcome)
    ensures r != Acquired(WhiteHole)
    ensures h0 != WhiteHole ==> r == Acquired(h0)
    ensures r.Spinning? <==> forall i :: 0 <= i <= |env| ==> Observed(h0, env, i) == WhiteHole
    ensures r.Acquired? ==> exists i :: 0 <= i <= |env| && r.prev == Observed(h0, env, i)
  {
    var j := FirstFree(h0, env, 0);
    if j <= |env| then Acquired(Observed(h0, env, j)) else Spinning
  }

  /** True when the lock functions only read the header: a non-threaded build,
      or a threaded one running a single capability. */
  predicate FastPath(rts: Rts)
  {
    !rts.threaded || rts.nCapabilities == 1
  }

  /** What lockClosure (and the C-- LOCK_CLOSURE macro) hands back. */
  function LockResult(rts: Rts, h0: Info, env: seq<Option<Info>>): (r: LockOutcome)
    ensures FastPath(rts) ==> r == Acquired(h0)
    ensures !FastPath(rts) ==> r != Acquired(WhiteHole)
    ensures h0 != WhiteHole ==> r == Acquired(h0)
  {
    if FastPath(rts) then Acquired(h0) else SpinLock(h0, env)
  }

  /** The header after lockClosure: untouched on the fast path, WHITEHOLE after
      any exchange. */
  function LockedHeader(rts: Rts, h0: Info): Info
  {
    if FastPath(rts) then h0 else WhiteHole
  }

  lemma FirstFreeAt(h0: Info, env: seq<Option<Info>>, k: nat)
    requires k <= |env|
    requires forall i :: 0 <= i < k ==> Observed(h0, env, i) == WhiteHole
    requires Observed(h0, env, k) != WhiteHole
    ensures FirstFree(h0, env, 0) == k
  {
  }

  /**
   * reallyLockClosure: exchange WHITEHOLE into the header until the value
   * exchanged out is not WHITEHOLE, yielding the OS thread after every
   * SPIN_COUNT failed attempts.  `env[k]` is what other threads store into the
   * header after attempt k; `yieldCount` counts the calls of yieldThread.  The
   * non-threaded build only reads the header.
   */
  method ReallyLockClosure(p: Closure, rts: Rts, env: seq<Option<Info>>)
    returns (r: LockOutcome, yieldCount: nat)
    modifies p
    ensures rts.threaded ==> r == SpinLock(old(p.info), env) && p.info == WhiteHole
    ensures rts.threaded ==> yieldCount == FirstFree(old(p.info), env, 0) / SPIN_COUNT
    ensures !rts.threaded ==> r == Acquired(old(p.info)) && p.info == old(p.info) && yieldCount == 0
  {
    yieldCount := 0;
    if !rts.threaded {
      r := Acquired(p.info);
      return;
    }
    ghost var h0 := p.info;
    var k: nat := 0;  // exchange attempts made so far
    while k <= |env|
      invariant k <= |env| + 1
      invariant forall i :: 0 <= i < k ==> Observed(h0, env, i) == WhiteHole
      invariant k == 0 ==> p.info == h0
      invariant k > 0 ==> p.info == WhiteHole
      invariant yieldCount * SPIN_COUNT <= k < (yieldCount + 1) * SPIN_COUNT
      invariant k <= |env| ==> k == yieldCount * SPIN_COUNT
      decreases |env| + 1 - k
    {
      var i: nat := 0;
      while i < SPIN_COUNT && k <= |env|
        invariant i <= SPIN_COUNT && k == yieldCount * SPIN_COUNT + i && k <= |env| + 1
        invariant forall j :: 0 <= j < k ==> Observed(h0, env, j) == WhiteHole
        invariant k == 0 ==> p.info == h0
        invariant k > 0 ==> p.info == WhiteHole
        decreases SPIN_COUNT - i
      {
        if k > 0 {
          p.info := StoredBy(env[k - 1], p.info);  // another thread's store
        }
        var prev := p.info;                        // xchg
        p.info := WhiteHole;
        if prev != WhiteHole {
          FirstFreeAt(h0, env, k);
          r := Acquired(prev);
          return;
        }
        i := i + 1;
        k := k + 1;
      }
      if i == SPIN_COUNT {
        yieldCount := yieldCount + 1;                      // yieldThread()
      }
    }
    r := Spinning;
  }

  /** lockClosure: the fast path reads the header; otherwise reallyLockClosure. */
  method LockClosure(p: Closure, rts: Rts, env: seq<Option<Info>>) returns (r: LockOutcome)
    modifies p
    ensures r == LockResult(rts, old(p.info), env)
    ensures p.info == LockedHeader(rts, old(p.info))
  {
    if FastPath(rts) {
      r := Acquired(p.info);
    } else {
      var spins;
      r, spins := ReallyLockClosure(p, rts, env);
    }
  }

  /** The C-- LOCK_CLOSURE macro: the same capability-count test, inlined. */
  method LockClosureCmm(p: Closure, rts: Rts, env: seq<Option<Info>>) returns (info: LockOutcome)
    modifies p
    ensures info == LockResult(rts, old(p.info), env)
    ensures p.info == LockedHeader(rts, old(p.info))
  {
    if rts.threaded {
      if rts.nCapabilities == 1 {
        info := Acquired(p.info);
      } else {
        var spins;
        info, spins := ReallyLockClosure(p, rts, env);
      }
    } else {
      info := Acquired(p.info);
    }
  }

  /** tryLockClosure: one exchange; None models the NULL returned when the
      header was already WHITEHOLE. */
  method TryLockClosure(p: Closure, rts: Rts) returns (r: Option<Info>)
    modifies p
    ensures FastPath(rts) ==> r == Some(old(p.info)) && p.info == old(p.info)
    ensures !FastPath(rts) ==> p.info == WhiteHole
    ensures !FastPath(rts) ==> (r.None? <==> old(p.info) == WhiteHole)
    ensures !FastPath(rts) && old(p.info) != WhiteHole ==> r == Some(old(p.info))
  {
    if FastPath(rts) {
      r := Some(p.info);
    } else {
      var prev := p.info;  // xchg
      p.info := WhiteHole;
      if prev != WhiteHole {
        r := Some(prev);
      } else {
        r := None;
      }
    }
  }

  /** unlockClosure (C and C--): store `info` into the header. */
  method UnlockClosure(p: Closure, info: Info)
    modifies p
    ensures p.info == info
  {
    p.info := info;
  }

  /** A critical section: lock, then unlock with the info the lock handed back. */
  method LockThenUnlock(p: Closure, rts: Rts, env: seq<Option<Info>>) returns (r: LockOutcome)
    modifies p
    ensures r == LockResult(rts, old(p.info), env)
    ensures r.Acquired? ==> p.info == r.prev
    ensures old(p.info) != WhiteHole ==> p.info == old(p.info)
  {
    r := LockClosure(p, rts, env);
    if r.Acquired? {
      UnlockClosure(p, r.prev);
    }
  }

  /** While the holder does not unlock, a slow-path locker never gets in: every
      attempt sees WHITEHOLE and the caller keeps spinning. */
  lemma HeldLockExcludes(env: seq<Option<Info>>)
    requires forall k :: 0 <= k < |env| ==> StoredBy(env[k], WhiteHole) == WhiteHole
    ensures SpinLock(WhiteHole, env) == Spinning
  {
  }

  /** A slow-path locker gets in at the first attempt after the holder stores
      a non-WHITEHOLE value, and receives exactly that value. */
  lemma AcquiresAfterRelease(env: seq<Option<Info>>, k: nat, v: Info)
    requires k < |env| && env[k] == Some(v) && v != WhiteHole
    requires forall i :: 0 <= i < k ==> StoredBy(env[i], WhiteHole) == WhiteHole
    ensures SpinLock(WhiteHole, env) == Acquired(v)
    ensures FirstFree(WhiteHole, env, 0) == k + 1
  {
    forall i | 0 <= i < k + 1
      ensures Observed(WhiteHole, env, i) == WhiteHole
    {
      if i > 0 {
        assert StoredBy(env[i - 1], WhiteHole) == WhiteHole;
      }
    }
    FirstFreeAt(WhiteHole, env, k + 1);
  }
}
