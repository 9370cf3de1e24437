/** The session protocol of the MIPS TEE client driver
    (drivers/tee/mipstee/mipstee_call.c): the per-context state (session list
    and cancellation index), the message buffer, and the four operations open,
    invoke, close and cancel.

    Each locked region of the driver is one atomic step here. The allocator,
    the channel, the parameter codec and kzalloc are not modelled; each
    operation takes their outcomes as parameters. Ghost state records what the
    driver does with them: every message handed to the channel (`wire`), every
    buffer allocated and freed, every session record allocated and freed, and
    every cancellation handle registered and removed. */
module MipsteeCall {
  import opened MipsteeTypes
  import opened SessionList
  import opened CancelIndex
  import opened Login

  /** MIPSTEE_MSG_ATTR_TYPE_VALUE_INPUT | MIPSTEE_MSG_ATTR_META (disjoint bits). */
  const MetaValueInput: nat := MIPSTEE_MSG_ATTR_TYPE_VALUE_INPUT + MIPSTEE_MSG_ATTR_META

  /** A message buffer (struct mipstee_msg_arg in shared memory), written
      field by field by the operations and by the channel's reply. */
  class MsgArg {
    var cmd: u32
    var func: u32
    var session: u32
    var cancelId: int
    var ret: u32
    var retOrigin: u32
    var numParams: nat
    var params: seq<Param>
    /** The buffer has been allocated and not yet freed. */
    ghost var live: bool

    ghost predicate Valid()
      reads this
    {
      |params| == numParams
    }

    /** What the secure world receives when the buffer is sent. */
    function Snapshot(): Wire
      reads this
    {
      Wire(cmd, session, cancelId, func, params)
    }

    /** The buffer as get_msg_arg leaves it: zeroed, with num_params set. */
    ghost predicate IsZeroed(n: nat)
      reads this
    {
      && Valid() && numParams == n
      && params == seq(n, _ => ZeroParam)
      && cmd == 0 && func == 0 && session == 0 && cancelId == 0
      && ret == 0 && retOrigin == 0
    }

    constructor Zeroed(n: nat)
      ensures live && IsZeroed(n)
    {
      cmd, func, session, cancelId := 0, 0, 0, 0;
      ret, retOrigin := 0, 0;
      numParams := n;
      params := seq(n, _ => ZeroParam);
      live := true;
    }
  }

  /** The meta parameters open places in front of the caller's parameters:
      the target UUID, then the client identity (nil UUID, login in c). */
  function OpenMeta(uuid: Uuid, login: u32): seq<Param> {
    [Param(MetaValueInput, uuid, 0), Param(MetaValueInput, NilUuid, login)]
  }

  function OpenWire(arg: OpenArg, handle: int, encoded: seq<Param>): Wire {
    Wire(MIPSTEE_MSG_CMD_OPEN_SESSION, 0, handle, 0, OpenMeta(arg.uuid, arg.clntLogin) + encoded)
  }

  function InvokeWire(arg: InvokeArg, handle: int, encoded: seq<Param>): Wire {
    Wire(MIPSTEE_MSG_CMD_INVOKE_COMMAND, arg.session, handle, arg.func, encoded)
  }

  function CloseWire(session: u32): Wire {
    Wire(MIPSTEE_MSG_CMD_CLOSE_SESSION, session, 0, 0, [])
  }

  function CancelWire(session: u32, handle: int): Wire {
    Wire(MIPSTEE_MSG_CMD_CANCEL, session, handle, 0, [])
  }

  /** ret after the channel: the secure world's, or COMMUNICATION when the
      channel failed. */
  function ReplyRet(reply: ChannelResult): u32 {
    if reply.Delivered? then reply.ret else TEEC_ERROR_COMMUNICATION
  }

  /** ret_origin after the channel: the secure world's, or COMMS when the
      channel failed. */
  function ReplyOrigin(reply: ChannelResult): u32 {
    if reply.Delivered? then reply.retOrigin else TEEC_ORIGIN_COMMS
  }

  /** The session field after the channel: a failed call leaves it as it was. */
  function ReplySession(reply: ChannelResult, before: u32): u32 {
    if reply.Delivered? then reply.session else before
  }

  /** Status returned by close: -EINVAL for an unknown id, the allocator's
      error when no buffer could be had, and 0 otherwise, whatever the
      channel did. */
  function CloseRc(registry: seq<u32>, session: u32, shm: ShmOutcome): (r: int)
    ensures r <= 0
    ensures session !in registry ==> r == -EINVAL
    ensures r == 0 <==> session in registry && shm.ShmOk?
  {
    if session !in registry then -EINVAL
    else if shm.ShmOk? then 0
    else shm.err
  }

  /** Channel traffic of close: one call, only for a known id with a buffer. */
  function CloseTraffic(registry: seq<u32>, session: u32, shm: ShmOutcome): seq<Sent> {
    if session in registry && shm.ShmOk? then [Sent(false, CloseWire(session))] else []
  }

  /** Status of open when it stops before the channel call, in the order of
      the checks: buffer, cancellation handle, login, codec, session record;
      0 when every check passes. */
  function OpenEarlyRc(shm: ShmOutcome, handle: int, login: u32, encode: CodecResult, sessMem: bool): (r: int)
    ensures r == 0 <==> shm.ShmOk? && handle >= 0 && LoginPermitted(login) && encode.Encoded? && sessMem
    ensures r > 0 ==> r == EACCES
  {
    if !shm.ShmOk? then shm.err
    else if handle < 0 then handle
    else if !LoginPermitted(login) then EACCES
    else if encode.EncodeFailed? then encode.err
    else if !sessMem then -ENOMEM
    else 0
  }

  /** Status of invoke for a known session when it stops before the channel
      call; 0 when every check passes. */
  function InvokeEarlyRc(shm: ShmOutcome, handle: int, encode: CodecResult): (r: int)
    ensures r <= 0
    ensures r == 0 <==> shm.ShmOk? && handle >= 0 && encode.Encoded?
  {
    if !shm.ShmOk? then shm.err
    else if handle < 0 then handle
    else if encode.EncodeFailed? then encode.err
    else 0
  }

  /** The session list after the list_add step of open. */
  function OpenAdded(registry: seq<u32>, ret: u32, session: u32): seq<u32> {
    if ret == TEEC_SUCCESS then [session] + registry else registry
  }

  /** The session list after a dispatched open: the returned id is added when
      the secure world reports success, and a decode failure closes the
      returned id again. */
  function OpenRegistry(registry: seq<u32>, ret: u32, session: u32, decodeOk: bool): seq<u32> {
    var added := OpenAdded(registry, ret, session);
    if decodeOk then added else RemoveFirst(added, session)
  }

  /** mipstee_authenticate_client: accept one of the six login methods and
      write the client identity (nil UUID, login in c) into parameter 1;
      otherwise return positive EACCES and leave the message alone. */
  method AuthenticateClient(msg: MsgArg, clntLogin: u32) returns (rc: int)
    requires |msg.params| >= 2
    modifies msg`params
    ensures rc == 0 <==> LoginPermitted(clntLogin)
    ensures rc != 0 ==> rc == EACCES && msg.params == old(msg.params)
    ensures rc == 0 ==> msg.params == old(msg.params)[1 := old(msg.params[1]).(ab := NilUuid, c := clntLogin)]
  {
    var clntUuid := NilUuid;
    if !LoginPermitted(clntLogin) {
      return EACCES;
    }
    msg.params := msg.params[1 := msg.params[1].(ab := clntUuid)];
    msg.params := msg.params[1 := msg.params[1].(c := clntLogin)];
    rc := 0;
  }

  /** The per-context state (struct mipstee_context_data). */
  class ContextData {
    /** sess_list, head first. */
    var sessList: seq<u32>
    /** cancel_idr: handle to token. */
    var cancelIdr: map<int, u32>
    /** The IDR's cyclic cursor (idr_next). */
    var idrNext: int

    /** Every message handed to the channel, in order. */
    ghost var wire: seq<Sent>
    /** Message buffers allocated and freed. */
    ghost var shmAllocs: nat
    ghost var shmFrees: nat
    /** Session records (struct mipstee_session) allocated and freed. */
    ghost var sessAllocs: nat
    ghost var sessFrees: nat
    /** Cancellation handles registered and removed. */
    ghost var registrations: nat
    ghost var removals: nat

    ghost predicate Valid()
      reads this
    {
      IdrValid(cancelIdr)
    }

    constructor ()
      ensures Valid() && sessList == [] && cancelIdr == map[] && idrNext == 0
      ensures wire == [] && shmAllocs == 0 && shmFrees == 0
      ensures sessAllocs == 0 && sessFrees == 0 && registrations == 0 && removals == 0
    {
      sessList, cancelIdr, idrNext := [], map[], 0;
      wire := [];
      shmAllocs, shmFrees, sessAllocs, sessFrees := 0, 0, 0, 0;
      registrations, removals := 0, 0;
    }

    /** find_session: the index of the first node carrying the id, -1 when
        there is none. */
    method FindSession(id: u32) returns (i: int)
      ensures -1 <= i < |sessList|
      ensures i >= 0 ==> sessList[i] == id && id !in sessList[..i]
      ensures i == -1 <==> id !in sessList
    {
      i := 0;
      while i < |sessList|
        invariant 0 <= i <= |sessList|
        invariant id !in sessList[..i]
      {
        if sessList[i] == id {
          return;
        }
        i := i + 1;
      }
      i := -1;
    }

    /** list_add: the new node goes to the head of the list. */
    method AddSession(id: u32)
      modifies this`sessList
      ensures sessList == [id] + old(sessList)
    {
      sessList := [id] + sessList;
    }

    /** list_del of the node at index i. */
    method RemoveSessionAt(i: nat)
      requires i < |sessList|
      modifies this`sessList
      ensures sessList == old(sessList[..i] + sessList[i + 1..])
    {
      sessList := sessList[..i] + sessList[i + 1..];
    }

    /** get_msg_arg: a zeroed buffer for num_params parameters, or the
        allocator's error; a buffer that could not be mapped is freed again. */
    method GetMsgArg(numParams: nat, outcome: ShmOutcome) returns (rc: int, msg: MsgArg?)
      modifies this`shmAllocs, this`shmFrees
      ensures rc == 0 <==> outcome.ShmOk?
      ensures outcome.ShmOk? ==> msg != null && fresh(msg) && msg.live && msg.IsZeroed(numParams)
      ensures outcome.ShmOk? ==> shmAllocs == old(shmAllocs) + 1 && shmFrees == old(shmFrees)
      ensures !outcome.ShmOk? ==> msg == null && rc == outcome.err
      ensures !outcome.ShmOk? ==> shmAllocs - old(shmAllocs) == shmFrees - old(shmFrees)
    {
      if outcome.ShmAllocFailed? {
        rc, msg := outcome.err, null;
      } else if outcome.ShmMapFailed? {
        shmAllocs := shmAllocs + 1;
        shmFrees := shmFrees + 1;
        rc, msg := outcome.err, null;
      } else {
        shmAllocs := shmAllocs + 1;
        msg := new MsgArg.Zeroed(numParams);
        rc := 0;
      }
    }

    /** tee_shm_free of a live buffer; a second free cannot be written. */
    method FreeMsgArg(msg: MsgArg)
      requires msg.live
      modifies this`shmFrees, msg`live
      ensures !msg.live && shmFrees == old(shmFrees) + 1
    {
      msg.live := false;
      shmFrees := shmFrees + 1;
    }

    /** mipstee_do_call_with_arg: CANCEL goes out as a one-way tipc_write,
        every other command as a tipc_call whose reply fills in session, ret
        and ret_origin. Returns 0, or the channel's error as an unsigned
        value. */
    method DoCallWithArg(msg: MsgArg, outcome: ChannelResult) returns (rc: u32)
      requires msg.live
      modifies this`wire, msg`session, msg`ret, msg`retOrigin
      ensures wire == old(wire) + [Sent(msg.cmd == MIPSTEE_MSG_CMD_CANCEL, old(msg.Snapshot()))]
      ensures rc == 0 <==> outcome.Delivered?
      ensures outcome.Delivered? && msg.cmd != MIPSTEE_MSG_CMD_CANCEL ==>
                msg.session == outcome.session && msg.ret == outcome.ret && msg.retOrigin == outcome.retOrigin
      ensures outcome.ChannelFailed? || msg.cmd == MIPSTEE_MSG_CMD_CANCEL ==>
                msg.session == old(msg.session) && msg.ret == old(msg.ret) && msg.retOrigin == old(msg.retOrigin)
    {
      var oneWay := msg.cmd == MIPSTEE_MSG_CMD_CANCEL;
      wire := wire + [Sent(oneWay, msg.Snapshot())];
      if outcome.ChannelFailed? {
        rc := outcome.err + 0x1_0000_0000;
      } else {
        if !oneWay {
          msg.session, msg.ret, msg.retOrigin := outcome.session, outcome.ret, outcome.retOrigin;
        }
        rc := 0;
      }
    }

    /** idr_for_each(&cancel_idr, match_cancel_id, token): walks the handles
        in ascending order and stops at the first entry carrying the token. */
    method IdrForEachMatch(token: u32) returns (id: int)
      requires Valid()
      ensures id == 0 <==> token !in cancelIdr.Values
      ensures id != 0 ==> id in cancelIdr && cancelIdr[id] == token
      ensures id != 0 ==> forall h :: h in cancelIdr && h < id ==> cancelIdr[h] != token
    {
      id := 0;
      var h := 1;
      while h <= MaxHandle && id == 0
        invariant 1 <= h <= MaxHandle + 1
        invariant id == 0 ==> forall k :: k in cancelIdr && k < h ==> cancelIdr[k] != token
        invariant id != 0 ==> id in cancelIdr && cancelIdr[id] == token
        invariant id != 0 ==> forall k :: k in cancelIdr && k < id ==> cancelIdr[k] != token
        decreases MaxHandle + 1 - h
      {
        if h in cancelIdr {
          id := MatchCancelId(h, cancelIdr[h], token);
        }
        h := h + 1;
      }
    }

    /** mipstee_alloc_cancel_idr: 0 for token 0; -EINVAL when the token is
        already registered; otherwise idr_alloc_cyclic from handle 1, whose
        handle now maps to the token. */
    method AllocCancelIdr(cancelId: u32, mem: AllocOutcome) returns (idrId: int)
      requires Valid()
      modifies this`cancelIdr, this`idrNext, this`registrations
      ensures Valid()
      ensures idrId == AllocResult(old(cancelIdr), old(idrNext), cancelId, mem)
      ensures idrId > 0 ==> cancelIdr == old(cancelIdr)[idrId := cancelId] && idrNext == idrId + 1
      ensures idrId > 0 ==> registrations == old(registrations) + 1
      ensures idrId <= 0 ==> cancelIdr == old(cancelIdr) && idrNext == old(idrNext)
      ensures idrId <= 0 ==> registrations == old(registrations)
    {
      if cancelId == 0 {
        return 0;
      }
      var found := IdrForEachMatch(cancelId);
      if found != 0 {
        idrId := -EINVAL;
      } else if mem.Refused? {
        idrId := mem.err;
      } else {
        idrId := CyclicAlloc(cancelIdr.Keys, idrNext);
        if idrId > 0 {
          RegisterKeepsValid(cancelIdr, idrNext, cancelId, mem);
          cancelIdr := cancelIdr[idrId := cancelId];
          idrNext := idrId + 1;
          registrations := registrations + 1;
        }
      }
    }

    /** mipstee_remove_cancel_idr: nothing for handle 0, otherwise idr_remove. */
    method RemoveCancelIdr(idrId: int)
      requires Valid()
      modifies this`cancelIdr, this`removals
      ensures Valid()
      ensures cancelIdr == if idrId == 0 then old(cancelIdr) else old(cancelIdr) - {idrId}
      ensures removals == old(removals) + if idrId != 0 && idrId in old(cancelIdr) then 1 else 0
    {
      if idrId == 0 {
        return;
      }
      RemoveKeepsValid(cancelIdr, idrId);
      if idrId in cancelIdr {
        removals := removals + 1;
      }
      cancelIdr := cancelIdr - {idrId};
    }

    /** mipstee_find_cancel_idr: the handle registered for the token, 0 when
        the token is 0 or unregistered. */
    method FindCancelIdr(cancelId: u32) returns (idrId: int)
      requires Valid()
      ensures idrId == 0 <==> cancelId == 0 || cancelId !in cancelIdr.Values
      ensures idrId != 0 ==> idrId in cancelIdr && cancelIdr[idrId] == cancelId
      ensures idrId != 0 ==> forall h :: h in cancelIdr && cancelIdr[h] == cancelId ==> h == idrId
    {
      idrId := 0;
      if cancelId == 0 {
        return;
      }
      idrId := IdrForEachMatch(cancelId);
    }

    /** The common exit of open and invoke: mipstee_remove_cancel_idr of the
        handle taken on entry (0 when none was) and tee_shm_free of the
        buffer, which gives back the index the operation started from. */
    method Release(msg: MsgArg, idrId: int, ghost base: map<int, u32>, ghost token: u32)
      requires Valid() && msg.live
      requires idrId > 0 ==> idrId !in base && cancelIdr == base[idrId := token]
      requires idrId <= 0 ==> idrId == 0 && cancelIdr == base
      modifies this`cancelIdr, this`removals, this`shmFrees, msg`live
      ensures Valid() && cancelIdr == base && !msg.live
      ensures shmFrees == old(shmFrees) + 1
      ensures removals == old(removals) + if idrId > 0 then 1 else 0
    {
      if idrId > 0 {
        RegisterThenRemove(base, idrId, token);
      }
      RemoveCancelIdr(idrId);
      FreeMsgArg(msg);
    }

    /** The part of mipstee_open_session between get_msg_arg and the channel
        call: command, cancellation handle, meta parameters, login check,
        codec and the session record. Returns the status and the handle that
        cleanup must remove. */
    method OpenPrepare(msg: MsgArg, arg: OpenArg, idrMem: AllocOutcome, encode: CodecResult, sessMem: bool)
      returns (rc: int, idrId: int)
      requires Valid() && msg.IsZeroed(arg.numParams + 2)
      requires encode.Encoded? ==> |encode.params| == arg.numParams
      modifies msg`cmd, msg`cancelId, msg`params, this`cancelIdr, this`idrNext, this`registrations
      modifies this`sessAllocs
      ensures Valid() && msg.Valid() && msg.session == 0 && msg.ret == 0 && msg.live == old(msg.live)
      ensures var handle := AllocResult(old(cancelIdr), old(idrNext), arg.cancelId, idrMem);
              && rc == OpenEarlyRc(ShmOk, handle, arg.clntLogin, encode, sessMem)
              && idrId == (if handle > 0 then handle else 0)
              && cancelIdr == (if handle > 0 then old(cancelIdr)[handle := arg.cancelId] else old(cancelIdr))
              && idrNext == (if handle > 0 then handle + 1 else old(idrNext))
              && registrations == old(registrations) + (if handle > 0 then 1 else 0)
              && (rc == 0 ==> msg.Snapshot() == OpenWire(arg, handle, encode.params))
      ensures sessAllocs == old(sessAllocs) + if rc == 0 then 1 else 0
    {
      msg.cmd := MIPSTEE_MSG_CMD_OPEN_SESSION;
      idrId := 0;
      rc := AllocCancelIdr(arg.cancelId, idrMem);
      if rc < 0 {
        return;
      }
      idrId := rc;
      msg.cancelId := idrId;
      msg.params := msg.params[0 := msg.params[0].(attr := MetaValueInput)];
      msg.params := msg.params[1 := msg.params[1].(attr := MetaValueInput)];
      msg.params := msg.params[0 := msg.params[0].(ab := arg.uuid)];
      rc := AuthenticateClient(msg, arg.clntLogin);
      if rc != 0 {
        return;
      }
      assert msg.params[..2] == OpenMeta(arg.uuid, arg.clntLogin);
      if encode.EncodeFailed? {
        return encode.err, idrId;
      }
      msg.params := msg.params[..2] + encode.params;
      if !sessMem {
        return -ENOMEM, idrId;
      }
      sessAllocs := sessAllocs + 1;
      rc := 0;
    }

    /** The part of mipstee_open_session from the channel call to the decode
        of the results: a failed call forces COMMUNICATION/COMMS, success puts
        the returned id on the list (otherwise the record is freed), and a
        decode failure closes the returned id again. */
    method OpenDispatch(msg: MsgArg, arg: OpenArg, reply: ChannelResult, decodeOk: bool,
                        closeShm: ShmOutcome, closeReply: ChannelResult)
      returns (res: OpenArg)
      requires Valid() && msg.live
      requires msg.cmd == MIPSTEE_MSG_CMD_OPEN_SESSION && msg.session == 0 && msg.ret == 0
      modifies this`sessList, this`sessFrees, this`wire, this`shmAllocs, this`shmFrees
      modifies msg`session, msg`ret, msg`retOrigin
      ensures Valid()
      ensures shmAllocs - old(shmAllocs) == shmFrees - old(shmFrees)
      ensures 1 == sessFrees - old(sessFrees) + |sessList| - |old(sessList)|
      ensures var sid, ret := ReplySession(reply, 0), ReplyRet(reply);
              && sessList == OpenRegistry(old(sessList), ret, sid, decodeOk)
              && wire == old(wire) + [Sent(false, old(msg.Snapshot()))]
                           + (if decodeOk then [] else CloseTraffic(OpenAdded(old(sessList), ret, sid), sid, closeShm))
              && res == if decodeOk then arg.(session := sid, ret := ret, retOrigin := ReplyOrigin(reply))
                        else arg.(ret := TEEC_ERROR_COMMUNICATION, retOrigin := TEEC_ORIGIN_COMMS)
    {
      var failed := DoCallWithArg(msg, reply);
      if failed != 0 {
        msg.ret, msg.retOrigin := TEEC_ERROR_COMMUNICATION, TEEC_ORIGIN_COMMS;
      }
      if msg.ret == TEEC_SUCCESS {
        AddSession(msg.session);
      } else {
        sessFrees := sessFrees + 1;
      }
      if !decodeOk {
        res := arg.(ret := TEEC_ERROR_COMMUNICATION, retOrigin := TEEC_ORIGIN_COMMS);
        var closeRc := CloseSession(msg.session, closeShm, closeReply);
      } else {
        res := arg.(session := msg.session, ret := msg.ret, retOrigin := msg.retOrigin);
      }
    }

    /** mipstee_open_session. */
    method OpenSession(arg: OpenArg, shmOut: ShmOutcome, idrMem: AllocOutcome, encode: CodecResult,
                       sessMem: bool, reply: ChannelResult, decodeOk: bool,
                       closeShm: ShmOutcome, closeReply: ChannelResult)
      returns (rc: int, res: OpenArg)
      requires Valid()
      requires encode.Encoded? ==> |encode.params| == arg.numParams
      modifies this
      ensures Valid()
      // Buffers and cancellation handles are released on every path.
      ensures shmAllocs - old(shmAllocs) == shmFrees - old(shmFrees)
      ensures cancelIdr == old(cancelIdr)
      ensures registrations - old(registrations) == removals - old(removals)
      ensures var handle := AllocResult(old(cancelIdr), old(idrNext), arg.cancelId, idrMem);
              idrNext == if shmOut.ShmOk? && handle > 0 then handle + 1 else old(idrNext)
      // A session record is either on the list or freed.
      ensures sessAllocs - old(sessAllocs) == sessFrees - old(sessFrees) + |sessList| - |old(sessList)|
      // Every check comes before the channel.
      ensures rc == OpenEarlyRc(shmOut, AllocResult(old(cancelIdr), old(idrNext), arg.cancelId, idrMem),
                                arg.clntLogin, encode, sessMem)
      ensures rc != 0 ==> res == arg && wire == old(wire) && sessList == old(sessList)
      ensures var handle := AllocResult(old(cancelIdr), old(idrNext), arg.cancelId, idrMem);
              var sid, ret := ReplySession(reply, 0), ReplyRet(reply);
              rc == 0 ==>
                && sessList == OpenRegistry(old(sessList), ret, sid, decodeOk)
                && wire == old(wire) + [Sent(false, OpenWire(arg, handle, encode.params))]
                             + (if decodeOk then [] else CloseTraffic(OpenAdded(old(sessList), ret, sid), sid, closeShm))
                && res == if decodeOk then arg.(session := sid, ret := ret, retOrigin := ReplyOrigin(reply))
                          else arg.(ret := TEEC_ERROR_COMMUNICATION, retOrigin := TEEC_ORIGIN_COMMS)
    {
      res := arg;
      var msg: MsgArg?;
      rc, msg := GetMsgArg(arg.numParams + 2, shmOut);
      if rc != 0 {
        return;
      }
      var idrId;
      rc, idrId := OpenPrepare(msg, arg, idrMem, encode, sessMem);
      if rc == 0 {
        res := OpenDispatch(msg, arg, reply, decodeOk, closeShm, closeReply);
      }
      Release(msg, idrId, old(cancelIdr), arg.cancelId);
    }

    /** mipstee_close_session: the id leaves the list before any I/O; the
        close notification is best effort. */
    method CloseSession(session: u32, shmOut: ShmOutcome, reply: ChannelResult) returns (rc: int)
      requires Valid()
      modifies this`sessList, this`sessFrees, this`wire, this`shmAllocs, this`shmFrees
      ensures Valid()
      ensures rc == CloseRc(old(sessList), session, shmOut)
      ensures sessList == RemoveFirst(old(sessList), session)
      ensures wire == old(wire) + CloseTraffic(old(sessList), session, shmOut)
      ensures sessFrees == old(sessFrees) + if session in old(sessList) then 1 else 0
      ensures shmAllocs - old(shmAllocs) == shmFrees - old(shmFrees)
      ensures session !in old(sessList) ==> shmAllocs == old(shmAllocs)
    {
      var i := FindSession(session);
      if i >= 0 {
        RemoveFirstAt(sessList, session, i);
        RemoveSessionAt(i);
      }
      if i < 0 {
        return -EINVAL;
      }
      sessFrees := sessFrees + 1;

      var msg: MsgArg?;
      rc, msg := GetMsgArg(0, shmOut);
      if rc != 0 {
        return;
      }
      msg.cmd := MIPSTEE_MSG_CMD_CLOSE_SESSION;
      msg.session := session;
      var failed := DoCallWithArg(msg, reply);
      FreeMsgArg(msg);
      rc := 0;
    }

    /** The part of mipstee_invoke_func between get_msg_arg and the channel
        call: command, function, session, cancellation handle and codec.
        Returns the status and the handle that cleanup must remove. */
    method InvokePrepare(msg: MsgArg, arg: InvokeArg, idrMem: AllocOutcome, encode: CodecResult)
      returns (rc: int, idrId: int)
      requires Valid() && msg.IsZeroed(arg.numParams)
      requires encode.Encoded? ==> |encode.params| == arg.numParams
      modifies msg`cmd, msg`func, msg`session, msg`cancelId, msg`params
      modifies this`cancelIdr, this`idrNext, this`registrations
      ensures Valid() && msg.Valid()
      ensures msg.cmd == MIPSTEE_MSG_CMD_INVOKE_COMMAND && msg.live == old(msg.live)
      ensures var handle := AllocResult(old(cancelIdr), old(idrNext), arg.cancelId, idrMem);
              && rc == InvokeEarlyRc(ShmOk, handle, encode)
              && idrId == (if handle > 0 then handle else 0)
              && cancelIdr == (if handle > 0 then old(cancelIdr)[handle := arg.cancelId] else old(cancelIdr))
              && idrNext == (if handle > 0 then handle + 1 else old(idrNext))
              && registrations == old(registrations) + (if handle > 0 then 1 else 0)
              && (rc == 0 ==> msg.Snapshot() == InvokeWire(arg, handle, encode.params))
    {
      msg.cmd := MIPSTEE_MSG_CMD_INVOKE_COMMAND;
      msg.func := arg.func;
      msg.session := arg.session;
      idrId := 0;
      rc := AllocCancelIdr(arg.cancelId, idrMem);
      if rc < 0 {
        return;
      }
      idrId := rc;
      msg.cancelId := idrId;
      if encode.EncodeFailed? {
        return encode.err, idrId;
      }
      msg.params := encode.params;
      rc := 0;
    }

    /** The part of mipstee_invoke_func from the channel call to the decode
        of the results: a failed call or a failed decode forces
        COMMUNICATION/COMMS. */
    method InvokeDispatch(msg: MsgArg, arg: InvokeArg, reply: ChannelResult, decodeOk: bool)
      returns (res: InvokeArg)
      requires msg.live && msg.cmd == MIPSTEE_MSG_CMD_INVOKE_COMMAND
      modifies this`wire, msg`session, msg`ret, msg`retOrigin
      ensures wire == old(wire) + [Sent(false, old(msg.Snapshot()))]
      ensures res == if reply.Delivered? && decodeOk
                     then arg.(ret := reply.ret, retOrigin := reply.retOrigin)
                     else arg.(ret := TEEC_ERROR_COMMUNICATION, retOrigin := TEEC_ORIGIN_COMMS)
    {
      var failed := DoCallWithArg(msg, reply);
      if failed != 0 {
        msg.ret, msg.retOrigin := TEEC_ERROR_COMMUNICATION, TEEC_ORIGIN_COMMS;
      }
      if !decodeOk {
        msg.ret, msg.retOrigin := TEEC_ERROR_COMMUNICATION, TEEC_ORIGIN_COMMS;
      }
      res := arg.(ret := msg.ret, retOrigin := msg.retOrigin);
    }

    /** mipstee_invoke_func. */
    method InvokeFunc(arg: InvokeArg, shmOut: ShmOutcome, idrMem: AllocOutcome, encode: CodecResult,
                      reply: ChannelResult, decodeOk: bool)
      returns (rc: int, res: InvokeArg)
      requires Valid()
      requires encode.Encoded? ==> |encode.params| == arg.numParams
      modifies this`wire, this`shmAllocs, this`shmFrees, this`cancelIdr, this`idrNext
      modifies this`registrations, this`removals
      ensures Valid()
      ensures shmAllocs - old(shmAllocs) == shmFrees - old(shmFrees)
      ensures cancelIdr == old(cancelIdr)
      ensures registrations - old(registrations) == removals - old(removals)
      // An unknown session is refused before any buffer or handle is taken.
      ensures arg.session !in sessList ==> rc == -EINVAL && shmAllocs == old(shmAllocs) && registrations == old(registrations)
      ensures var handle := AllocResult(old(cancelIdr), old(idrNext), arg.cancelId, idrMem);
              idrNext == if arg.session in sessList && shmOut.ShmOk? && handle > 0 then handle + 1 else old(idrNext)
      ensures arg.session in sessList ==>
                rc == InvokeEarlyRc(shmOut, AllocResult(old(cancelIdr), old(idrNext), arg.cancelId, idrMem), encode)
      ensures rc != 0 ==> res == arg && wire == old(wire)
      ensures var handle := AllocResult(old(cancelIdr), old(idrNext), arg.cancelId, idrMem);
              rc == 0 ==>
                && wire == old(wire) + [Sent(false, InvokeWire(arg, handle, encode.params))]
                && res == if reply.Delivered? && decodeOk
                          then arg.(ret := reply.ret, retOrigin := reply.retOrigin)
                          else arg.(ret := TEEC_ERROR_COMMUNICATION, retOrigin := TEEC_ORIGIN_COMMS)
    {
      res := arg;
      var i := FindSession(arg.session);
      if i < 0 {
        return -EINVAL, arg;
      }

      var msg: MsgArg?;
      rc, msg := GetMsgArg(arg.numParams, shmOut);
      if rc != 0 {
        return;
      }
      var idrId;
      rc, idrId := InvokePrepare(msg, arg, idrMem, encode);
      if rc == 0 {
        res := InvokeDispatch(msg, arg, reply, decodeOk);
      }
      Release(msg, idrId, old(cancelIdr), arg.cancelId);
    }

    /** mipstee_cancel_req: checks the session (when one is given) and the
        token, then sends one advisory CANCEL message one-way. */
    method CancelReq(cancelId: u32, session: u32, shmOut: ShmOutcome, sendOut: ChannelResult)
      returns (rc: int)
      requires Valid()
      modifies this`wire, this`shmAllocs, this`shmFrees
      ensures shmAllocs - old(shmAllocs) == shmFrees - old(shmFrees)
      ensures (session != 0 && session !in sessList) || cancelId == 0 || cancelId !in cancelIdr.Values ==>
                rc == -EINVAL && wire == old(wire) && shmAllocs == old(shmAllocs)
      ensures (session == 0 || session in sessList) && cancelId != 0 && cancelId in cancelIdr.Values ==>
                && rc == (if shmOut.ShmOk? then 0 else shmOut.err)
                && (!shmOut.ShmOk? ==> wire == old(wire))
                && (shmOut.ShmOk? ==>
                      && |wire| == |old(wire)| + 1 && wire[..|old(wire)|] == old(wire)
                      && var h := wire[|old(wire)|].msg.cancelId;
                         && wire[|old(wire)|] == Sent(true, CancelWire(session, h))
                         && h in cancelIdr && cancelIdr[h] == cancelId)
    {
      if session != 0 {
        var i := FindSession(session);
        if i < 0 {
          return -EINVAL;
        }
      }

      var idrId := FindCancelIdr(cancelId);
      if idrId == 0 {
        return -EINVAL;
      }

      var msg: MsgArg?;
      rc, msg := GetMsgArg(0, shmOut);
      if rc != 0 {
        return;
      }
      msg.cmd := MIPSTEE_MSG_CMD_CANCEL;
      msg.session := session;
      msg.cancelId := idrId;
      var failed := DoCallWithArg(msg, sendOut);
      FreeMsgArg(msg);
      rc := 0;
    }
  }
}
