/** Fixed-width integers, kernel error numbers, wire constants and the records
    shared by the components of the MIPS TEE client driver model
    (drivers/tee/mipstee/mipstee_call.c).

    The message-layout header of the driver is not part of this model; the
    command, attribute and result constants below carry the values of the
    OP-TEE message protocol that the driver's message format follows, and the
    TEEC_* values of the GlobalPlatform TEE Client API. */
module MipsteeTypes {

  type u8 = x: int | 0 <= x < 0x100
  type u32 = x: int | 0 <= x < 0x1_0000_0000

  /** A kernel error as carried by ERR_PTR/PTR_ERR: -MAX_ERRNO .. -1. */
  type Errno = e: int | -4095 <= e <= -1 witness -1

  const EACCES: int := 13
  const ENOMEM: int := 12
  const EINVAL: int := 22
  const ENOSPC: int := 28

  /** Result codes and origins of the GlobalPlatform TEE Client API. */
  const TEEC_SUCCESS: u32 := 0
  const TEEC_ERROR_COMMUNICATION: u32 := 0xFFFF_000E
  const TEEC_ORIGIN_COMMS: u32 := 2

  /** Message commands. */
  const MIPSTEE_MSG_CMD_OPEN_SESSION: u32 := 0
  const MIPSTEE_MSG_CMD_INVOKE_COMMAND: u32 := 1
  const MIPSTEE_MSG_CMD_CLOSE_SESSION: u32 := 2
  const MIPSTEE_MSG_CMD_CANCEL: u32 := 3

  /** Parameter attributes. */
  const MIPSTEE_MSG_ATTR_TYPE_VALUE_INPUT: nat := 0x1
  const MIPSTEE_MSG_ATTR_META: nat := 0x100

  /** A 16-byte UUID (TEE_IOCTL_UUID_LEN). */
  type Uuid = s: seq<u8> | |s| == 16 witness [0, 0, 0, 0, 0, 0, 0, 0, 0, 0, 0, 0, 0, 0, 0, 0]

  const NilUuid: Uuid := [0, 0, 0, 0, 0, 0, 0, 0, 0, 0, 0, 0, 0, 0, 0, 0]

  datatype Option<T> = None | Some(value: T)

  /** One wire parameter: its attribute word and its value union, where `ab`
      stands for the 16 bytes of the value fields a and b and `c` for field c. */
  datatype Param = Param(attr: nat, ab: seq<u8>, c: nat)

  /** A parameter slot of a freshly zeroed message buffer. */
  const ZeroParam: Param := Param(0, NilUuid, 0)

  /** What a message carries towards the secure world at the moment it is sent. */
  datatype Wire = Wire(cmd: u32, session: u32, cancelId: int, func: u32, params: seq<Param>)

  /** One use of the channel: a one-way tipc_write, or a tipc_call awaiting a reply. */
  datatype Sent = Sent(oneWay: bool, msg: Wire)

  /** Outcome of get_msg_arg's allocator: success, a failed tee_shm_alloc, or a
      failed tee_shm_get_va/tee_shm_get_pa after which the buffer is freed again. */
  datatype ShmOutcome = ShmOk | ShmAllocFailed(err: Errno) | ShmMapFailed(err: Errno)

  /** Outcome of the channel.  For tipc_call a delivered reply writes the
      session, ret and ret_origin fields of the message; tipc_write has no reply. */
  datatype ChannelResult = Delivered(session: u32, ret: u32, retOrigin: u32) | ChannelFailed(err: Errno)

  /** Outcome of mipstee_to_msg_param: the encoded caller parameters, or an
      error, taken to be a negative errno. */
  datatype CodecResult = Encoded(params: seq<Param>) | EncodeFailed(err: Errno)

  /** Outcome of a memory allocation inside the IDR (idr_alloc_cyclic's -ENOMEM). */
  datatype AllocOutcome = Granted | Refused(err: Errno)

  /** The caller's struct tee_ioctl_open_session_arg, read and written by open. */
  datatype OpenArg = OpenArg(uuid: Uuid, clntLogin: u32, cancelId: u32, numParams: nat,
                             session: u32, ret: u32, retOrigin: u32)

  /** The caller's struct tee_ioctl_invoke_arg, read and written by invoke. */
  datatype InvokeArg = InvokeArg(func: u32, session: u32, cancelId: u32, numParams: nat,
                                 ret: u32, retOrigin: u32)
}
