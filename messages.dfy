/**
 * Retiring a ThrowTo message once it has been acted on: its pointer fields go
 * to the capability's update remembered set when the non-moving collector's
 * write barrier is on, then the locked header is released as MSG_NULL.
 */
module Messages {

  import opened ClosureLock

  /** A heap address, as far as the remembered set is concerned. */
  type Ptr = nat

  /** The part of a capability this operation touches: its update remembered set. */
  class Capability {
    var updRemSet: seq<Ptr>

    constructor ()
      ensures updRemSet == []
    {
      updRemSet := [];
    }

    /** updateRemembSetPushClosure: record `p` for the concurrent marker. */
    method UpdateRemembSetPushClosure(p: Ptr)
      modifies this
      ensures updRemSet == old(updRemSet) + [p]
    {
      updRemSet := updRemSet + [p];
    }
  }

  /** A MessageThrowTo: a header (the closure lock) and four pointer fields. */
  class MessageThrowTo {
    const header: Closure
    var link: Ptr
    var source: Ptr
    var target: Ptr
    var exception: Ptr

    constructor (header: Closure, link: Ptr, source: Ptr, target: Ptr, exception: Ptr)
      ensures this.header == header && this.link == link && this.source == source
      ensures this.target == target && this.exception == exception
    {
      this.header := header;
      this.link := link;
      this.source := source;
      this.target := target;
      this.exception := exception;
    }

    /** The fields the write barrier records, in the order it records them. */
    function Fields(): (fs: seq<Ptr>)
      reads this
      ensures fs == [link, source, target, exception]
    {
      [link, source, target, exception]
    }
  }

  /**
   * doneWithMsgThrowTo: the message must be locked (its header WHITEHOLE)
   * unless the runtime runs a single capability.  Afterwards the header is
   * MSG_NULL and the message's own fields are untouched.
   */
  method DoneWithMsgThrowTo(cap: Capability, m: MessageThrowTo, rts: Rts, nonmovingWriteBarrier: bool)
    requires rts.nCapabilities == 1 || m.header.info == WhiteHole
    modifies cap, m.header
    ensures m.header.info == MsgNull
    ensures nonmovingWriteBarrier ==> cap.updRemSet == old(cap.updRemSet) + m.Fields()
    ensures !nonmovingWriteBarrier ==> cap.updRemSet == old(cap.updRemSet)
  {
    if nonmovingWriteBarrier {
      cap.UpdateRemembSetPushClosure(m.link);
      cap.UpdateRemembSetPushClosure(m.source);
      cap.UpdateRemembSetPushClosure(m.target);
      cap.UpdateRemembSetPushClosure(m.exception);
    }
    UnlockClosure(m.header, MsgNull);
  }
}
