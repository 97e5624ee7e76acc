/**
 * The last-error slot of sercomm/err.c: one 256-byte buffer per thread
 * (global when the compiler has no thread-local storage) that every
 * failing call overwrites with a description and that `sererr_last` hands
 * back. When the library is built without SER_WITH_ERRDESC, `sererr_set`
 * is an empty macro and `sererr_last` returns NULL.
 */
module ErrSlot {
  import opened SerTypes

  /** `ERR_SZ`: the size of the buffer, terminator included. */
  const ERR_SZ: nat := 256

  /** What `vsnprintf(err_last, ERR_SZ, "%s", msg)` leaves in the buffer. */
  function Clip(msg: string): (s: string)
    ensures |s| <= ERR_SZ - 1 && |s| <= |msg|
    ensures s == msg[..|s|]
    ensures |msg| <= ERR_SZ - 1 ==> s == msg
    ensures |msg| >= ERR_SZ - 1 ==> |s| == ERR_SZ - 1
  {
    if |msg| <= ERR_SZ - 1 then msg else msg[..ERR_SZ - 1]
  }

  /** The slot one thread sees (`err_last`). */
  class LastError {
    /** Whether the library was built with SER_WITH_ERRDESC. */
    const withErrDesc: bool
    /** The text before the terminator of `err_last`. */
    var text: string

    ghost predicate Valid()
      reads this
    {
      |text| <= ERR_SZ - 1
    }

    /** The slot as initialised: "Success". */
    constructor (withErrDesc: bool)
      ensures Valid()
      ensures this.withErrDesc == withErrDesc
      ensures text == "Success"
    {
      this.withErrDesc := withErrDesc;
      text := "Success";
    }

    /** `sererr_set`: replace the whole slot with the (clipped) message. */
    method Set(msg: string)
      requires Valid()
      modifies this
      ensures Valid()
      ensures withErrDesc ==> text == Clip(msg)
      ensures !withErrDesc ==> text == old(text)
    {
      if withErrDesc {
        text := Clip(msg);
      }
    }

    /**
     * Deliver the outcome of one library call to the slot: the text the call
     * passed to `sererr_set` last, if it passed any; a call that passed none
     * leaves the slot exactly as it was.
     */
    method Record(st: Status)
      requires Valid()
      modifies this
      ensures Valid()
      ensures st.msg.None? ==> text == old(text)
      ensures st.msg.Some? && withErrDesc ==> text == Clip(st.msg.value)
      ensures !withErrDesc ==> text == old(text)
    {
      if st.msg.Some? {
        Set(st.msg.value);
      }
    }

    /** `sererr_last`: the slot when descriptions are built in, NULL otherwise. */
    method Last() returns (r: Option<string>)
      requires Valid()
      ensures withErrDesc <==> r.Some?
      ensures r.Some? ==> r.value == text && |r.value| <= ERR_SZ - 1
    {
      if withErrDesc {
        r := Some(text);
      } else {
        r := None;
      }
    }
  }

  /** A caller's view: after a call that records `msg`, `sererr_last` returns it clipped. */
  method SetThenLast(slot: LastError, msg: string) returns (r: Option<string>)
    requires slot.Valid() && slot.withErrDesc
    modifies slot
    ensures r == Some(Clip(msg))
  {
    slot.Set(msg);
    r := slot.Last();
  }
}
