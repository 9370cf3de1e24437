/** The cancellation index (cancel_idr): an IDR from driver-internal handles to
    caller-chosen cancellation tokens. Handle 0 and token 0 mean "no
    cancellation"; the IDR is allocated cyclically with
    idr_alloc_cyclic(idr, token, 1, 0, ...), that is from [1, INT_MAX]. */
module CancelIndex {
  import opened MipsteeTypes

  /** Largest handle idr_alloc_cyclic hands out when its end argument is 0. */
  const MaxHandle: int := 0x7fff_ffff

  /** What the index keeps between operations: handles in range, no entry for
      the sentinel token 0, and at most one handle per token. */
  ghost predicate IdrValid(idr: map<int, u32>) {
    && (forall h :: h in idr ==> 1 <= h <= MaxHandle && idr[h] != 0)
    && (forall h1, h2 :: h1 in idr && h2 in idr && idr[h1] == idr[h2] ==> h1 == h2)
  }

  /** The idr_for_each callback match_cancel_id: an entry whose pointer is the
      token yields its (nonzero) handle, which stops the walk; any other entry
      yields 0 and lets the walk go on. */
  function MatchCancelId(id: int, p: u32, data: u32): int {
    if p == data then id else 0
  }

  /** The lowest handle in [lo, hi] that is not in use, if any. */
  function FirstFree(used: set<int>, lo: int, hi: int): (r: Option<int>)
    ensures r.Some? ==> lo <= r.value <= hi && r.value !in used
    ensures r.Some? ==> forall k :: lo <= k < r.value ==> k in used
    ensures r.None? ==> forall k :: lo <= k <= hi ==> k in used
    decreases hi - lo
  {
    if lo > hi then None
    else if lo !in used then Some(lo)
    else FirstFree(used, lo + 1, hi)
  }

  /** idr_alloc_cyclic(idr, p, 1, 0, gfp) without its allocation failure:
      the search starts at the cursor (or at 1 when the cursor has left the
      range), takes the first free handle up to INT_MAX, and otherwise wraps
      around to 1; -ENOSPC when every handle is in use. */
  function CyclicAlloc(used: set<int>, next: int): (r: int)
    ensures r == -ENOSPC || (1 <= r <= MaxHandle && r !in used)
    ensures r == -ENOSPC ==> forall k :: 1 <= k <= MaxHandle ==> k in used
    ensures var from := if 1 <= next <= MaxHandle then next else 1;
            && (r >= from ==> forall k :: from <= k < r ==> k in used)
            && (1 <= r < from ==> forall k :: (from <= k <= MaxHandle || 1 <= k < r) ==> k in used)
  {
    var from := if 1 <= next <= MaxHandle then next else 1;
    match FirstFree(used, from, MaxHandle)
    case Some(h) => h
    case None =>
      if from > 1 then
        match FirstFree(used, 1, MaxHandle)
        case Some(h) => h
        case None => -ENOSPC
      else -ENOSPC
  }

  /** The handles 1 .. n. */
  function HandleRange(n: nat): (r: set<int>)
    ensures forall k :: k in r <==> 1 <= k <= n
    ensures |r| == n
  {
    if n == 0 then {} else HandleRange(n - 1) + {n}
  }

  /** A subset is no larger than its superset. */
  lemma SubsetCard(a: set<int>, b: set<int>)
    requires a <= b
    ensures |a| <= |b|
  {
    assert b == a + (b - a);
  }

  /** The cyclic allocator cannot run out while fewer than INT_MAX handles
      are in use. */
  lemma CyclicAllocFailsOnlyWhenFull(used: set<int>, next: int)
    requires |used| < MaxHandle
    ensures CyclicAlloc(used, next) >= 1
  {
    if CyclicAlloc(used, next) == -ENOSPC {
      var range := HandleRange(MaxHandle);
      SubsetCard(range, used);
    }
  }

  /** The result of mipstee_alloc_cancel_idr: 0 for token 0, -EINVAL when
      another entry already carries the token (the idr_for_each scan), and
      otherwise the result of idr_alloc_cyclic, which may fail. */
  function AllocResult(idr: map<int, u32>, next: int, token: u32, mem: AllocOutcome): (r: int)
    ensures token == 0 ==> r == 0
    ensures token != 0 && token in idr.Values ==> r == -EINVAL
    ensures token != 0 && token !in idr.Values ==> r != 0
    ensures r > 0 ==> token != 0 && token !in idr.Values && 1 <= r <= MaxHandle && r !in idr
    ensures r < 0 ==> r == -EINVAL || r == -ENOSPC || (mem.Refused? && r == mem.err)
  {
    if token == 0 then 0
    else if token in idr.Values then -EINVAL
    else if mem.Refused? then mem.err
    else CyclicAlloc(idr.Keys, next)
  }

  /** A successful registration keeps the index valid, so no token is ever
      mapped by two handles. */
  lemma RegisterKeepsValid(idr: map<int, u32>, next: int, token: u32, mem: AllocOutcome)
    requires IdrValid(idr)
    requires AllocResult(idr, next, token, mem) > 0
    ensures IdrValid(idr[AllocResult(idr, next, token, mem) := token])
  {
  }

  /** Removing an entry keeps the index valid. */
  lemma RemoveKeepsValid(idr: map<int, u32>, h: int)
    requires IdrValid(idr)
    ensures IdrValid(idr - {h})
  {
  }

  /** Removing the handle an operation registered restores the index it
      started from. */
  lemma RegisterThenRemove(idr: map<int, u32>, h: int, token: u32)
    requires h !in idr
    ensures idr[h := token] - {h} == idr
  {
  }
}
