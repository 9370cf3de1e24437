/** The per-context session list (sess_list) as a sequence of session ids,
    head first: list_add puts a new node at the head, find_session returns the
    first node carrying an id, and close deletes that node. The driver never
    checks whether the id the secure world returns is already listed, so the
    sequence may hold repeats; the lemmas below say what the registry keeps
    exactly, and what it keeps when ids are distinct. */
module SessionList {
  import opened MipsteeTypes

  /** The list after deleting the first node that carries `id`; the list
      itself when no node does. */
  function RemoveFirst(s: seq<u32>, id: u32): (r: seq<u32>)
    ensures |r| == if id in s then |s| - 1 else |s|
    ensures id !in s ==> r == s
  {
    if s == [] then []
    else if s[0] == id then s[1..]
    else [s[0]] + RemoveFirst(s[1..], id)
  }

  /** Session ids are unique within a context. */
  ghost predicate Distinct(s: seq<u32>) {
    forall i, j :: 0 <= i < j < |s| ==> s[i] != s[j]
  }

  /** Deleting the node that find_session located at index `i` (the first
      occurrence of `id`) is RemoveFirst. */
  lemma {:induction false} RemoveFirstAt(s: seq<u32>, id: u32, i: nat)
    requires i < |s| && s[i] == id && id !in s[..i]
    ensures RemoveFirst(s, id) == s[..i] + s[i + 1..]
  {
    if i > 0 {
      assert s[0] != id by { assert s[0] == s[..i][0]; }
      assert s[1..][..i - 1] == s[1..i];
      assert s[1..i] == s[..i][1..];
      RemoveFirstAt(s[1..], id, i - 1);
      assert s[1..][i..] == s[i + 1..];
      assert s[..i] == [s[0]] + s[1..][..i - 1];
    }
  }

  /** Close takes away exactly one copy of the id, and nothing else. */
  lemma {:induction false} RemoveFirstMultiset(s: seq<u32>, id: u32)
    ensures multiset(RemoveFirst(s, id)) == multiset(s) - multiset{id}
  {
    if s != [] {
      assert s == [s[0]] + s[1..];
      if s[0] != id {
        RemoveFirstMultiset(s[1..], id);
      }
    }
  }

  /** Removal never introduces an id. */
  lemma RemoveFirstSubset(s: seq<u32>, id: u32, x: u32)
    requires x in RemoveFirst(s, id)
    ensures x in s
  {
    RemoveFirstMultiset(s, id);
    assert multiset(RemoveFirst(s, id))[x] > 0;
  }

  /** An id registered exactly once is gone after one close. */
  lemma RemoveFirstClears(s: seq<u32>, id: u32)
    requires multiset(s)[id] <= 1
    ensures id !in RemoveFirst(s, id)
  {
    RemoveFirstMultiset(s, id);
    assert multiset(RemoveFirst(s, id))[id] == 0;
  }

  /** In a list of distinct ids every id occurs at most once. */
  lemma {:induction false} DistinctOnce(s: seq<u32>, id: u32)
    requires Distinct(s)
    ensures multiset(s)[id] <= 1
  {
    if s != [] {
      assert s == [s[0]] + s[1..];
      assert Distinct(s[1..]) by {
        forall i, j | 0 <= i < j < |s[1..]| ensures s[1..][i] != s[1..][j] {
          assert s[1..][i] == s[i + 1] && s[1..][j] == s[j + 1];
        }
      }
      DistinctOnce(s[1..], id);
      if s[0] == id {
        assert id !in s[1..] by {
          forall k | 0 <= k < |s[1..]| ensures s[1..][k] != id {
            assert s[1..][k] == s[k + 1];
          }
        }
      }
    }
  }

  /** Closing keeps the ids distinct. */
  lemma {:induction false} RemoveFirstDistinct(s: seq<u32>, id: u32)
    requires Distinct(s)
    ensures Distinct(RemoveFirst(s, id))
  {
    if s != [] && s[0] != id {
      var t := s[1..];
      assert Distinct(t) by {
        forall i, j | 0 <= i < j < |t| ensures t[i] != t[j] {
          assert t[i] == s[i + 1] && t[j] == s[j + 1];
        }
      }
      RemoveFirstDistinct(t, id);
      var r := RemoveFirst(t, id);
      assert s[0] !in r by {
        if s[0] in r {
          RemoveFirstSubset(t, id, s[0]);
          assert false;
        }
      }
      forall i, j | 0 <= i < j < |[s[0]] + r| ensures ([s[0]] + r)[i] != ([s[0]] + r)[j] {
        if i == 0 {
          assert ([s[0]] + r)[j] == r[j - 1];
        } else {
          assert ([s[0]] + r)[i] == r[i - 1] && ([s[0]] + r)[j] == r[j - 1];
        }
      }
    }
    if s != [] && s[0] == id {
      forall i, j | 0 <= i < j < |s[1..]| ensures s[1..][i] != s[1..][j] {
        assert s[1..][i] == s[i + 1] && s[1..][j] == s[j + 1];
      }
    }
  }
}
