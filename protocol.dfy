/** What open and close do to a context's session list, stated over the
    specification functions that the methods of MipsteeCall are proved
    against. */
module Protocol {
  import opened MipsteeTypes
  import opened SessionList
  import opened MipsteeCall

  /** A dispatched open adds one copy of the returned id exactly when the
      secure world reports success and the results decode; a decode failure
      after success takes that copy away again, and a decode failure after
      an unsuccessful call closes one earlier copy of the same id. */
  lemma OpenRegistryMultiset(s: seq<u32>, ret: u32, sid: u32, decodeOk: bool)
    ensures decodeOk && ret == TEEC_SUCCESS ==> multiset(OpenRegistry(s, ret, sid, decodeOk)) == multiset(s) + multiset{sid}
    ensures decodeOk && ret != TEEC_SUCCESS ==> OpenRegistry(s, ret, sid, decodeOk) == s
    ensures !decodeOk && ret == TEEC_SUCCESS ==> OpenRegistry(s, ret, sid, decodeOk) == s
    ensures !decodeOk && ret != TEEC_SUCCESS ==> multiset(OpenRegistry(s, ret, sid, decodeOk)) == multiset(s) - multiset{sid}
  {
    if !decodeOk && ret != TEEC_SUCCESS {
      RemoveFirstMultiset(s, sid);
    }
  }

  /** A decode failure leaves no entry from this open: whatever open added,
      its compensating close took away. */
  lemma OpenDecodeFailureAddsNothing(s: seq<u32>, ret: u32, sid: u32)
    ensures forall x :: x in OpenRegistry(s, ret, sid, false) ==> x in s
    ensures |OpenRegistry(s, ret, sid, false)| <= |s|
  {
    if ret != TEEC_SUCCESS {
      forall x | x in OpenRegistry(s, ret, sid, false) ensures x in s {
        RemoveFirstSubset(s, sid, x);
      }
    }
  }

  /** Open keeps the ids of a context distinct as long as the secure world
      does not hand out an id that is already listed. */
  lemma OpenKeepsDistinct(s: seq<u32>, ret: u32, sid: u32, decodeOk: bool)
    requires Distinct(s)
    requires ret == TEEC_SUCCESS ==> sid !in s
    ensures Distinct(OpenRegistry(s, ret, sid, decodeOk))
  {
    var added := OpenAdded(s, ret, sid);
    assert Distinct(added) by {
      if ret == TEEC_SUCCESS {
        forall i, j | 0 <= i < j < |added| ensures added[i] != added[j] {
          assert added[j] == s[j - 1];
          if i > 0 {
            assert added[i] == s[i - 1];
          }
        }
      }
    }
    if !decodeOk {
      RemoveFirstDistinct(added, sid);
    }
  }

  /** Close removes a listed id before any I/O, so a second close of an id
      that was listed once is refused with -EINVAL and sends nothing,
      whatever became of the first close's buffer and message. */
  lemma SecondCloseRejected(s: seq<u32>, sid: u32, shm: ShmOutcome)
    requires multiset(s)[sid] <= 1
    ensures CloseRc(RemoveFirst(s, sid), sid, shm) == -EINVAL
    ensures CloseTraffic(RemoveFirst(s, sid), sid, shm) == []
  {
    RemoveFirstClears(s, sid);
  }

  /** With distinct ids, every close after the first of the same id is
      refused. */
  lemma DistinctSecondCloseRejected(s: seq<u32>, sid: u32, shm: ShmOutcome)
    requires Distinct(s)
    ensures CloseRc(RemoveFirst(s, sid), sid, shm) == -EINVAL
  {
    DistinctOnce(s, sid);
    RemoveFirstClears(s, sid);
  }
}
