# MIPS TEE client driver: session protocol model

A Dafny model of the session protocol in `drivers/tee/mipstee/mipstee_call.c`, the Linux client driver for the MIPS trusted execution environment. The model covers:

- **The cancellation index** (`CancelIndex`, cancel_index.dfy). `cancel_idr` is a map from handles in [1, INT_MAX] to caller tokens, with a cyclic cursor. The model defines `idr_alloc_cyclic(idr, token, 1, 0)`, the `match_cancel_id` callback and the result of `mipstee_alloc_cancel_idr`. It proves that the index maps each token to at most one handle.
- **The session list** (`SessionList`, session_list.dfy). `sess_list` is a sequence of ids, head first. Close deletes the first node that carries the id. The lemmas say what close removes in every case, and what it keeps when the ids are distinct.
- **Login validation** (`Login`, login.dfy). These are the six GlobalPlatform TEE Client API login methods that `mipstee_authenticate_client` accepts.
- **The driver** (`MipsteeCall`, mipstee_call.dfy), in two classes:
  - `MsgArg` is the message buffer, whose fields the operations write one by one.
  - `ContextData` is the per-context state, `struct mipstee_context_data`. Its methods are `find_session`, `list_add`/`list_del`, `get_msg_arg`, `tee_shm_free`, `mipstee_do_call_with_arg`, the `idr_for_each` scan, alloc/remove/find of cancellation handles, and the four operations open, close, invoke and cancel.
- **Protocol lemmas** (`Protocol`, protocol.dfy). These state what open and close do to the session list.
- **Client scenarios** (`Scenarios`, scenarios.dfy). Each scenario method creates its own context, calls the operations with chosen outcomes, and states for all of its inputs what a caller sees.

How external code is modelled:

- **Outside code as parameters.** Several collaborators are not modelled; each operation takes their outcome as a parameter instead. These are:
  - the shared-memory allocator: `ShmOutcome`, either success, a failed `tee_shm_alloc`, or a failed mapping after which the buffer is freed;
  - the IPC channel: `ChannelResult`, either a reply or an error;
  - the parameter codec: `CodecResult`, plus a `decodeOk` flag for the results;
  - `kzalloc` of the session record: `sessMem`;
  - memory allocation inside the IDR: `AllocOutcome`.
- **Ghost records.** Ghost fields log what the driver does with those collaborators:
  - `wire` logs every message handed to the channel. Each entry says whether it went one-way (`tipc_write`) or as a call (`tipc_call`).
  - Separate counters track buffers allocated and freed, session records allocated and freed, and cancellation handles registered and removed.
  - A ghost `live` flag on each buffer makes a double free, or sending a freed buffer, impossible to write.

What is proved:

- Open and invoke free their buffer and remove their cancellation handle on every path.
- Every refusal comes before any channel traffic.
- Only cancel goes one-way.
- Close takes the id off the list before it allocates the buffer or sends anything.
- A second close of an id that was listed once is refused.

Two behaviours of the code are modelled as written:

- **Positive EACCES.** `mipstee_authenticate_client` returns positive `EACCES`, so open returns EACCES as a positive value.
- **Compensating close.** After a decode failure, open closes `msg_arg->session`, the id that the secure world put in the buffer.
  - When the secure world reported success, this takes away the entry that open just added.
  - When it did not, no entry was added. The close then removes an earlier entry with the same id if there is one, or returns -EINVAL with no traffic if there is not.
  - A failed channel call is taken to leave the buffer as it was (the transport is not part of this model). Under that assumption the id after a failed call is 0, the value of the zeroed buffer.
  - `Protocol.OpenRegistryMultiset` states all of these cases.

The driver never checks whether a session id returned by the secure world is already listed, so the list may hold repeats. `Protocol.OpenKeepsDistinct` gives the condition under which ids stay distinct.

Command, attribute and result constants follow the OP-TEE message protocol and the GlobalPlatform TEE Client API: OPEN 0, INVOKE 1, CLOSE 2, CANCEL 3, VALUE_INPUT 0x1, META 0x100, TEEC_SUCCESS 0, TEEC_ERROR_COMMUNICATION 0xFFFF000E, TEEC_ORIGIN_COMMS 2. The driver's message header `mipstee_msg.h` is not part of this model. Linux errno values are EACCES 13, ENOMEM 12, EINVAL 22, ENOSPC 28.

## Model

| member | source | states |
|---|---|---|
| SessionList.RemoveFirst | drivers/tee/mipstee/mipstee_call.c:325-329 | list_del of the first node with the id: the list shrinks by one exactly when the id was listed, and is unchanged otherwise |
| SessionList.RemoveFirstAt | drivers/tee/mipstee/mipstee_call.c:326-328 | deleting the node that find_session located (the first occurrence) is the same as RemoveFirst |
| SessionList.RemoveFirstMultiset | drivers/tee/mipstee/mipstee_call.c:325-329 | close takes away exactly one copy of the id and leaves every other entry in place |
| SessionList.RemoveFirstSubset | drivers/tee/mipstee/mipstee_call.c:325-329 | close never introduces an id |
| SessionList.RemoveFirstClears | drivers/tee/mipstee/mipstee_call.c:325-331 | an id listed once is no longer listed after one close |
| SessionList.DistinctOnce | drivers/tee/mipstee/mipstee_call.c:29-39 | in a list of distinct ids, each id occurs at most once |
| SessionList.RemoveFirstDistinct | drivers/tee/mipstee/mipstee_call.c:325-329 | close keeps the ids distinct |
| CancelIndex.FirstFree | drivers/tee/mipstee/mipstee_call.c:186-187 | the lowest unused handle in a range, with every lower handle of the range in use; none when every handle of the range is in use |
| CancelIndex.CyclicAlloc | drivers/tee/mipstee/mipstee_call.c:186-187 | idr_alloc_cyclic from 1 to INT_MAX: an unused handle that is first in cyclic order from the cursor, or -ENOSPC only when all handles are in use |
| CancelIndex.HandleRange | drivers/tee/mipstee/mipstee_call.c:186-187 | the set of handles 1..n, which has n members |
| CancelIndex.CyclicAllocFailsOnlyWhenFull | drivers/tee/mipstee/mipstee_call.c:186-187 | with fewer than INT_MAX handles in use, cyclic allocation always returns a handle |
| CancelIndex.AllocResult | drivers/tee/mipstee/mipstee_call.c:170-193 | token 0 gives 0; a registered token gives -EINVAL; otherwise the handle is fresh and in range, or an allocation error |
| CancelIndex.RegisterKeepsValid | drivers/tee/mipstee/mipstee_call.c:180-187 | a successful registration keeps every token mapped by at most one handle |
| CancelIndex.RemoveKeepsValid | drivers/tee/mipstee/mipstee_call.c:195-206 | idr_remove keeps the index valid |
| CancelIndex.RegisterThenRemove | drivers/tee/mipstee/mipstee_call.c:307-309 | removing the freshly registered handle gives back the index as it was before |
| Login.LoginPermitted | drivers/tee/mipstee/mipstee_call.c:114-154 | definition: the switch accepts exactly the six TEEC_LOGIN_* methods |
| MipsteeCall.MsgArg.Zeroed | drivers/tee/mipstee/mipstee_call.c:96-97 | a fresh buffer is zeroed, with num_params set |
| MipsteeCall.CloseRc | drivers/tee/mipstee/mipstee_call.c:330-344 | close returns -EINVAL for an unlisted id, 0 exactly when the id was listed and a buffer was obtained, and never a positive value |
| MipsteeCall.OpenEarlyRc | drivers/tee/mipstee/mipstee_call.c:240-278 | open reaches the channel exactly when the buffer, the handle, the login, the codec and kzalloc all succeed; its only positive status is EACCES |
| MipsteeCall.InvokeEarlyRc | drivers/tee/mipstee/mipstee_call.c:367-383 | invoke of a known session reaches the channel exactly when the buffer, the handle and the codec succeed; a refusal is negative |
| CancelIndex.IdrValid | drivers/tee/mipstee/mipstee_call.c:180-187 | definition: every handle is in [1, INT_MAX], no entry holds token 0, and no two handles hold the same token |
| MipsteeCall.OpenMeta | drivers/tee/mipstee/mipstee_call.c:256-260 | definition: the two meta parameters of open, both VALUE_INPUT, META, the target UUID in parameter 0, the nil UUID with the login in parameter 1 |
| MipsteeCall.OpenWire | drivers/tee/mipstee/mipstee_call.c:244-272 | definition: the OPEN message as sent, with session 0, the cancellation handle, the meta parameters and the encoded parameters |
| MipsteeCall.InvokeWire | drivers/tee/mipstee/mipstee_call.c:370-383 | definition: the INVOKE message as sent, with the function, the session, the handle and the encoded parameters |
| MipsteeCall.CloseWire | drivers/tee/mipstee/mipstee_call.c:338-339 | definition: the CLOSE message, carrying only the session id |
| MipsteeCall.CancelWire | drivers/tee/mipstee/mipstee_call.c:435-437 | definition: the CANCEL message, carrying the session and the looked-up handle |
| MipsteeCall.ReplyRet | drivers/tee/mipstee/mipstee_call.c:280-283 | definition: ret after the call, the secure world's value or COMMUNICATION when the call failed |
| MipsteeCall.ReplyOrigin | drivers/tee/mipstee/mipstee_call.c:280-283 | definition: ret_origin after the call, the secure world's value or COMMS when the call failed |
| MipsteeCall.ReplySession | drivers/tee/mipstee/mipstee_call.c:280-287 | definition: the session field after the call, the secure world's value or the earlier value when the call failed |
| MipsteeCall.CloseTraffic | drivers/tee/mipstee/mipstee_call.c:330-340 | definition: close sends one CLOSE call exactly when the id was listed and a buffer was had |
| MipsteeCall.OpenAdded | drivers/tee/mipstee/mipstee_call.c:285-293 | definition: the list after open's list_add, with the returned id at the head exactly when ret is TEEC_SUCCESS |
| MipsteeCall.OpenRegistry | drivers/tee/mipstee/mipstee_call.c:285-301 | definition: the list after a dispatched open, OpenAdded followed by the compensating close of the returned id when decoding fails |
| MipsteeCall.AuthenticateClient | drivers/tee/mipstee/mipstee_call.c:108-160 | returns 0 exactly for the six login methods, and then writes the nil UUID and the login into parameter 1; otherwise returns positive EACCES and leaves the buffer untouched |
| MipsteeCall.ContextData.FindSession | drivers/tee/mipstee/mipstee_call.c:29-39 | the index of the first node with the id, or -1 exactly when the id is not listed |
| MipsteeCall.ContextData.AddSession | drivers/tee/mipstee/mipstee_call.c:288-290 | list_add puts the id at the head |
| MipsteeCall.ContextData.RemoveSessionAt | drivers/tee/mipstee/mipstee_call.c:327-328 | list_del removes exactly the node at the index |
| MipsteeCall.ContextData.GetMsgArg | drivers/tee/mipstee/mipstee_call.c:73-106 | either a fresh, zeroed, live buffer with one allocation counted, or the allocator's error with allocations and frees balanced |
| MipsteeCall.ContextData.FreeMsgArg | drivers/tee/mipstee/mipstee_call.c:309 | frees a live buffer exactly once |
| MipsteeCall.ContextData.DoCallWithArg | drivers/tee/mipstee/mipstee_call.c:48-71 | logs one message, one-way exactly for CANCEL; a reply to a call fills in session, ret and ret_origin; returns 0 exactly when the channel delivered |
| MipsteeCall.ContextData.IdrForEachMatch | drivers/tee/mipstee/mipstee_call.c:162-182 | idr_for_each with the match_cancel_id callback: the ascending walk returns the lowest handle carrying the token, and 0 exactly when the token is unregistered |
| MipsteeCall.ContextData.AllocCancelIdr | drivers/tee/mipstee/mipstee_call.c:170-193 | returns AllocResult; on success the new handle maps to the token, the other entries are unchanged and the cursor moves past it; otherwise the index is unchanged |
| MipsteeCall.ContextData.RemoveCancelIdr | drivers/tee/mipstee/mipstee_call.c:195-206 | handle 0 is a no-op; otherwise exactly that entry is deleted |
| MipsteeCall.ContextData.FindCancelIdr | drivers/tee/mipstee/mipstee_call.c:208-223 | the unique handle mapped to the token; 0 when the token is 0 or unregistered; the index is not modified |
| MipsteeCall.ContextData.Release | drivers/tee/mipstee/mipstee_call.c:307-309 | the shared exit removes the handle taken on entry and frees the buffer, giving back the original index |
| MipsteeCall.ContextData.OpenPrepare | drivers/tee/mipstee/mipstee_call.c:244-278 | the checks run in source order; when all pass, the buffer holds OPEN, the handle, the two meta parameters and the encoded parameters, and one session record is allocated |
| MipsteeCall.ContextData.OpenDispatch | drivers/tee/mipstee/mipstee_call.c:280-306 | a failed call forces COMMUNICATION/COMMS; the id is listed exactly on TEEC_SUCCESS, otherwise the record is freed; a decode failure reports COMMUNICATION/COMMS and closes the returned id |
| MipsteeCall.ContextData.OpenSession | drivers/tee/mipstee/mipstee_call.c:225-313 | the buffer and the handle are released on every path; the index comes back unchanged; every refusal has no traffic and leaves the list unchanged; otherwise one OPEN call goes out, and the list and the result follow OpenRegistry |
| MipsteeCall.ContextData.CloseSession | drivers/tee/mipstee/mipstee_call.c:315-345 | the id leaves the list before any allocation; an unknown id gives -EINVAL with no traffic; a listed id gives 0 whatever the channel does |
| MipsteeCall.ContextData.InvokePrepare | drivers/tee/mipstee/mipstee_call.c:370-383 | when the handle and the codec succeed, the buffer holds INVOKE, the function, the session, the handle and the encoded parameters |
| MipsteeCall.ContextData.InvokeDispatch | drivers/tee/mipstee/mipstee_call.c:385-396 | one INVOKE call; a call failure or a decode failure yields COMMUNICATION/COMMS, otherwise the secure world's ret and ret_origin |
| MipsteeCall.ContextData.InvokeFunc | drivers/tee/mipstee/mipstee_call.c:347-402 | an unknown session gives -EINVAL with no buffer and no traffic; the cursor moves past a newly registered handle and is otherwise unchanged; the list is never modified; the buffer and the handle are released on every path; a refusal has no traffic |
| MipsteeCall.ContextData.CancelReq | drivers/tee/mipstee/mipstee_call.c:404-442 | an unknown nonzero session or an unregistered token gives -EINVAL with no buffer and no message; otherwise exactly one one-way CANCEL carrying the token's handle, and 0 whatever the write does |
| Protocol.OpenRegistryMultiset | drivers/tee/mipstee/mipstee_call.c:285-301 | what a dispatched open does to the list, case by case: one copy added on success, none kept after a decode failure, one earlier copy closed when a decode failure follows an unsuccessful call |
| Protocol.OpenDecodeFailureAddsNothing | drivers/tee/mipstee/mipstee_call.c:295-301 | after a decode failure the list holds no id it did not hold before open |
| Protocol.OpenKeepsDistinct | drivers/tee/mipstee/mipstee_call.c:285-301 | open keeps ids distinct when the secure world returns an id that is not listed yet |
| Protocol.SecondCloseRejected | drivers/tee/mipstee/mipstee_call.c:324-331 | after closing an id listed once, closing it again gives -EINVAL with no traffic |
| Protocol.DistinctSecondCloseRejected | drivers/tee/mipstee/mipstee_call.c:324-331 | with distinct ids, every second close of the same id gives -EINVAL |
| Scenarios.OpenThenCloseTwice | drivers/tee/mipstee/mipstee_call.c:280-345 | an accepted open lists the id; the first close gives 0 even when its message fails, the second gives -EINVAL; only the open call and one close reach the channel |
| Scenarios.OpenDecodeFailure | drivers/tee/mipstee/mipstee_call.c:295-301 | a decode failure reports COMMUNICATION/COMMS, sends one close for the returned id, and leaves the id unlisted |
| Scenarios.CollidingTokens | drivers/tee/mipstee/mipstee_call.c:180-187 | a second use of a registered token makes open fail with -EINVAL, with no traffic |
| Scenarios.CancelInFlight | drivers/tee/mipstee/mipstee_call.c:427-441 | cancelling a registered token of a live session sends exactly one one-way CANCEL with its handle, and returns 0 even when the write fails |

## Left out

- The transport internals of `tipc_call` and `tipc_write`, and the message length `MIPSTEE_MSG_GET_ARG_SIZE`. Each send is an entry in the ghost `wire` log, and its outcome is a parameter.
- The mechanics of `tee_shm_alloc`, `tee_shm_get_va` and `tee_shm_get_pa`, physical addresses and the byte layout of the buffer. A buffer is a `MsgArg` record with `num_params` parameters.
- `mipstee_to_msg_param` and `mipstee_from_msg_param`. Encoding gives either the encoded parameters or an error. mipstee_to_msg_param's failure is taken to be a negative errno; the driver returns any nonzero status as is, so a positive codec status is not modelled, and the OpenEarlyRc and InvokeEarlyRc sign clauses rest on this. Decoding gives success or failure. The values that decoding writes back to the caller's parameters are not modelled.
- The mutexes and concurrency. Each locked region is one atomic step. The gap between invoke's session check and a concurrent close is not modelled. Neither is registering a handle for an in-flight call while a cancel runs: `Scenarios.CancelInFlight` registers the handle before it cancels.
- `kzalloc` and `kfree` of session records beyond success or failure, with ghost counters. `pr_devel` and `pr_err` logging.
- The byte-wise `memcpy` of the UUID. A UUID is a 16-element sequence, and parameter 0's value fields a and b hold it.
- The `struct tee_ioctl_*_arg` records. Each is a value passed in, and the operation returns it updated.
- MipsteeCall.ContextData.DoCallWithArg: the channel's reply writes only session, ret and ret_origin. Any other reply content is not modelled. A failed call is taken to leave the buffer unchanged; what `tipc_call` does to the buffer on failure is not part of this model, and ReplySession and the compensating close of open after a failed call rest on this.
- The message buffer's `numParams` is a `nat`: open's `arg->num_params + 2` is computed without the u32 wrap-around of the source.
- CancelIndex.CyclicAlloc: the IDR is a map plus a cursor. A cursor past INT_MAX restarts the search at 1. The radix-tree internals are not modelled.
- Creating and releasing a context belongs to another file and is not part of this model. The `ContextData` constructor gives the empty state a context starts from.
