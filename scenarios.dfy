/** Client scenarios that state the guarantees of the driver end to end:
    each method creates its own context, calls the operations with chosen
    outcomes of the collaborators, and states, for all of its inputs, what a
    caller observes. */
module Scenarios {
  import opened MipsteeTypes
  import opened SessionList
  import opened CancelIndex
  import opened Login
  import opened MipsteeCall

  /** The parameters an encoder that accepts everything produces. */
  function Blank(n: nat): (r: seq<Param>)
    ensures |r| == n
  {
    seq(n, _ => ZeroParam)
  }

  /** Open a session the secure world accepts, then close it twice: the
      first close succeeds even though its message is lost, the second is
      refused, and only the open call and the first close reach the
      channel. */
  method OpenThenCloseTwice(arg: OpenArg, sid: u32, origin: u32)
    returns (openRc: int, res: OpenArg, first: int, second: int, ghost traffic: seq<Sent>)
    requires LoginPermitted(arg.clntLogin) && arg.cancelId == 0
    ensures openRc == 0 && res.session == sid && res.ret == TEEC_SUCCESS && res.retOrigin == origin
    ensures first == 0 && second == -EINVAL
    ensures traffic == [Sent(false, OpenWire(arg, 0, Blank(arg.numParams))), Sent(false, CloseWire(sid))]
  {
    var c := new ContextData();
    openRc, res := c.OpenSession(arg, ShmOk, Granted, Encoded(Blank(arg.numParams)), true,
                                 Delivered(sid, TEEC_SUCCESS, origin), true, ShmOk, ChannelFailed(-5));
    assert c.sessList == [sid];
    first := c.CloseSession(sid, ShmOk, ChannelFailed(-5));
    second := c.CloseSession(sid, ShmOk, ChannelFailed(-5));
    traffic := c.wire;
  }

  /** An open whose results cannot be decoded reports COMMUNICATION/COMMS
      and leaves the context without a session: the compensating close sends
      a close for the id the secure world returned. */
  method OpenDecodeFailure(arg: OpenArg, sid: u32)
    returns (openRc: int, res: OpenArg, listed: bool, ghost traffic: seq<Sent>)
    requires LoginPermitted(arg.clntLogin) && arg.cancelId == 0
    ensures openRc == 0 && res.ret == TEEC_ERROR_COMMUNICATION && res.retOrigin == TEEC_ORIGIN_COMMS
    ensures !listed
    ensures traffic == [Sent(false, OpenWire(arg, 0, Blank(arg.numParams))), Sent(false, CloseWire(sid))]
  {
    var c := new ContextData();
    openRc, res := c.OpenSession(arg, ShmOk, Granted, Encoded(Blank(arg.numParams)), true,
                                 Delivered(sid, TEEC_SUCCESS, 0), false, ShmOk, Delivered(0, 0, 0));
    var i := c.FindSession(sid);
    listed := i >= 0;
    traffic := c.wire;
  }

  /** A token that is already registered makes open fail with -EINVAL, and
      nothing reaches the channel. */
  method CollidingTokens(arg: OpenArg)
    returns (h: int, openRc: int, ghost traffic: seq<Sent>)
    requires arg.cancelId != 0
    ensures h >= 1
    ensures openRc == -EINVAL && traffic == []
  {
    var c := new ContextData();
    CyclicAllocFailsOnlyWhenFull({}, 0);
    h := c.AllocCancelIdr(arg.cancelId, Granted);
    var res;
    openRc, res := c.OpenSession(arg, ShmOk, Granted, Encoded(Blank(arg.numParams)), true,
                                 Delivered(0, 0, 0), true, ShmOk, Delivered(0, 0, 0));
    traffic := c.wire;
  }

  /** Cancelling a registered token of a live session sends exactly one
      one-way CANCEL carrying the handle of the token, and succeeds even
      when that write fails. */
  method CancelInFlight(arg: OpenArg, sid: u32, token: u32)
    returns (h: int, rc: int, ghost traffic: seq<Sent>)
    requires LoginPermitted(arg.clntLogin) && arg.cancelId == 0 && token != 0
    ensures h >= 1 && rc == 0
    ensures |traffic| == 2 && traffic[1] == Sent(true, CancelWire(sid, h))
  {
    var c := new ContextData();
    var openRc, res := c.OpenSession(arg, ShmOk, Granted, Encoded(Blank(arg.numParams)), true,
                                     Delivered(sid, TEEC_SUCCESS, 0), true, ShmOk, Delivered(0, 0, 0));
    CyclicAllocFailsOnlyWhenFull({}, 0);
    h := c.AllocCancelIdr(token, Granted);
    rc := c.CancelReq(token, sid, ShmOk, ChannelFailed(-5));
    traffic := c.wire;
  }
}
