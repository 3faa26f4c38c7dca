/** Packing of SQL fragments into statements below the D1 byte budget. */
module PlanChunks {
  import opened Wrappers

  const STATEMENT_BUDGET_BYTES: nat := 90_000

  /** Bytes of the fragments joined with ", ". */
  function JoinedBytes<T>(chunk: seq<T>, bytes: T -> nat): nat {
    if |chunk| == 0 then 0
    else if |chunk| == 1 then bytes(chunk[0])
    else JoinedBytes(chunk[..|chunk| - 1], bytes) + 2 + bytes(chunk[|chunk| - 1])
  }

  function Flatten<T>(chunks: seq<seq<T>>): seq<T> {
    if chunks == [] then [] else chunks[0] + Flatten(chunks[1..])
  }

  /** A fragment is charged two bytes for its separator unless it is the very first one. */
  predicate TooLarge<T>(fragments: seq<T>, bytes: T -> nat, i: nat)
    requires i < |fragments|
  {
    bytes(fragments[i]) + (if i > 0 then 2 else 0) > STATEMENT_BUDGET_BYTES
  }

  /**
   * What the chunks of `fragments` must be. The running counter of a chunk is its joined size plus `lead`, where
   * `lead` is 0 for the first chunk and 2 for every later one (the separator charged to its first fragment). Each
   * chunk is non-empty and within budget under that counter, and could not have taken the next fragment.
   */
  ghost predicate IsChunking<T>(fragments: seq<T>, chunks: seq<seq<T>>, bytes: T -> nat, lead: nat)
    decreases |chunks|
  {
    if chunks == [] then fragments == []
    else
      && chunks[0] != []
      && chunks[0] <= fragments
      && JoinedBytes(chunks[0], bytes) + lead <= STATEMENT_BUDGET_BYTES
      && (|chunks[0]| < |fragments| ==>
            JoinedBytes(chunks[0], bytes) + lead + 2 + bytes(fragments[|chunks[0]|]) > STATEMENT_BUDGET_BYTES)
      && IsChunking(fragments[|chunks[0]|..], chunks[1..], bytes, 2)
  }

  /** The chunking of `current + rest`, given the counter reached by the open chunk `current`. */
  function ChunkFrom<T>(current: seq<T>, counter: nat, rest: seq<T>, bytes: T -> nat): Option<seq<seq<T>>>
    decreases |rest|
  {
    if rest == [] then Some(if current == [] then [] else [current])
    else
      var size := bytes(rest[0]) + (if |current| > 0 then 2 else 0);
      if size > STATEMENT_BUDGET_BYTES then None
      else if |current| > 0 && counter + size > STATEMENT_BUDGET_BYTES then
        match ChunkFrom([rest[0]], size, rest[1..], bytes)
        case None => None
        case Some(chunks) => Some([current] + chunks)
      else
        ChunkFrom(current + [rest[0]], counter + size, rest[1..], bytes)
  }

  function Chunks<T>(fragments: seq<T>, bytes: T -> nat): Option<seq<seq<T>>> {
    ChunkFrom([], 0, fragments, bytes)
  }

  method ChunkSqlFragments<T>(fragments: seq<T>, bytes: T -> nat) returns (result: Option<seq<seq<T>>>)
    ensures result == Chunks(fragments, bytes)
    ensures result.None? <==> exists i | 0 <= i < |fragments| :: TooLarge(fragments, bytes, i)
    ensures result.Some? ==> IsChunking(fragments, result.value, bytes, 0)
  {
    hide IsChunking;
    ChunksAreAChunking(fragments, bytes);
    var chunks: seq<seq<T>> := [];
    var current: seq<T> := [];
    var counter: nat := 0;
    var i := 0;
    assert fragments[0..] == fragments;
    ghost var whole := Chunks(fragments, bytes);
    assert whole.Some? ==> chunks + whole.value == whole.value;
    while i < |fragments|
      invariant 0 <= i <= |fragments|
      invariant Prepend(chunks, ChunkFrom(current, counter, fragments[i..], bytes)) == Chunks(fragments, bytes)
    {
      var fragment := fragments[i];
      var fragmentBytes := bytes(fragment) + (if |current| > 0 then 2 else 0);
      assert fragments[i..][0] == fragment && fragments[i..][1..] == fragments[i + 1..];
      if fragmentBytes > STATEMENT_BUDGET_BYTES {
        return None;
      }
      if |current| > 0 && counter + fragmentBytes > STATEMENT_BUDGET_BYTES {
        ghost var tail := ChunkFrom([fragment], fragmentBytes, fragments[i + 1..], bytes);
        assert tail.Some? ==> chunks + ([current] + tail.value) == chunks + [current] + tail.value;
        chunks := chunks + [current];
        current := [];
        counter := 0;
      }
      assert [] + [fragment] == [fragment];
      current := current + [fragment];
      counter := counter + fragmentBytes;
      i := i + 1;
    }
    assert chunks + [] == chunks;
    if |current| > 0 {
      chunks := chunks + [current];
    }
    result := Some(chunks);
  }

  function Prepend<T>(chunks: seq<seq<T>>, rest: Option<seq<seq<T>>>): Option<seq<seq<T>>> {
    match rest
    case None => None
    case Some(more) => Some(chunks + more)
  }

  /** The open chunk and the fragments still to come are packed greedily, or some later fragment is too large. */
  lemma {:induction false} ChunkFromIsAChunking<T>(current: seq<T>, lead: nat, rest: seq<T>, bytes: T -> nat)
    requires current != []
    requires JoinedBytes(current, bytes) + lead <= STATEMENT_BUDGET_BYTES
    ensures var result := ChunkFrom(current, JoinedBytes(current, bytes) + lead, rest, bytes);
      && (result.None? <==> exists i | 0 <= i < |rest| :: bytes(rest[i]) + 2 > STATEMENT_BUDGET_BYTES)
      && (result.Some? ==> result.value != [] && current <= result.value[0])
      && (result.Some? ==> IsChunking(current + rest, result.value, bytes, lead))
    decreases |rest|
  {
    if rest == [] {
      assert current + rest == current;
      assert IsChunking(current[|current|..], [], bytes, 2);
      assert [current][1..] == [];
    } else {
      var size := bytes(rest[0]) + 2;
      assert forall i | 0 < i < |rest| :: rest[i] == rest[1..][i - 1];
      if size <= STATEMENT_BUDGET_BYTES {
        if JoinedBytes(current, bytes) + lead + size > STATEMENT_BUDGET_BYTES {
          ChunkFromIsAChunking([rest[0]], 2, rest[1..], bytes);
          var tail := ChunkFrom([rest[0]], size, rest[1..], bytes);
          assert [rest[0]] + rest[1..] == rest;
          if tail.Some? {
            var chunks := [current] + tail.value;
            assert chunks[1..] == tail.value;
            assert (current + rest)[|current|..] == rest;
          }
        } else {
          var next := current + [rest[0]];
          assert next[..|next| - 1] == current;
          ChunkFromIsAChunking(next, lead, rest[1..], bytes);
          assert next + rest[1..] == current + rest;
        }
      }
    }
  }

  lemma ChunksAreAChunking<T>(fragments: seq<T>, bytes: T -> nat)
    ensures Chunks(fragments, bytes).None? <==> exists i | 0 <= i < |fragments| :: TooLarge(fragments, bytes, i)
    ensures Chunks(fragments, bytes).Some? ==> IsChunking(fragments, Chunks(fragments, bytes).value, bytes, 0)
  {
    if fragments != [] {
      var first := fragments[0];
      if bytes(first) <= STATEMENT_BUDGET_BYTES {
        ChunkFromIsAChunking([first], 0, fragments[1..], bytes);
        assert [] + [first] == [first];
        assert [first] + fragments[1..] == fragments;
        if Chunks(fragments, bytes).None? {
          var i :| 0 <= i < |fragments[1..]| && bytes(fragments[1..][i]) + 2 > STATEMENT_BUDGET_BYTES;
          assert TooLarge(fragments, bytes, i + 1);
        } else {
          forall i | 0 <= i < |fragments| ensures !TooLarge(fragments, bytes, i) {
            assert i > 0 ==> fragments[i] == fragments[1..][i - 1];
          }
        }
      } else {
        assert TooLarge(fragments, bytes, 0);
      }
    }
  }

  /** Nothing is lost or reordered, no chunk is empty, and every joined chunk fits the statement budget. */
  lemma {:induction false} ChunkingConcatenates<T>(fragments: seq<T>, chunks: seq<seq<T>>, bytes: T -> nat, lead: nat)
    requires IsChunking(fragments, chunks, bytes, lead)
    ensures Flatten(chunks) == fragments
    ensures forall chunk | chunk in chunks :: chunk != [] && JoinedBytes(chunk, bytes) <= STATEMENT_BUDGET_BYTES
    decreases |chunks|
  {
    if chunks != [] {
      ChunkingConcatenates(fragments[|chunks[0]|..], chunks[1..], bytes, 2);
      assert chunks[0] + fragments[|chunks[0]|..] == fragments;
      assert chunks == [chunks[0]] + chunks[1..];
    }
  }

  lemma {:induction false} JoinedBytesGrow<T>(shorter: seq<T>, longer: seq<T>, bytes: T -> nat)
    requires shorter != [] && shorter < longer
    ensures JoinedBytes(longer, bytes) >= JoinedBytes(shorter, bytes) + 2 + bytes(longer[|shorter|])
    decreases |longer|
  {
    var init := longer[..|longer| - 1];
    if |longer| == |shorter| + 1 {
      assert init == shorter;
    } else {
      JoinedBytesGrow(shorter, init, bytes);
    }
  }

  /** Greedy packing is the only packing that meets the description. */
  lemma {:induction false} ChunkingIsUnique<T>(
    fragments: seq<T>, left: seq<seq<T>>, right: seq<seq<T>>, bytes: T -> nat, lead: nat)
    requires IsChunking(fragments, left, bytes, lead) && IsChunking(fragments, right, bytes, lead)
    ensures left == right
    decreases |left|
  {
    if left != [] && right != [] {
      var a, b := left[0], right[0];
      assert a == fragments[..|a|] && b == fragments[..|b|];
      if |a| < |b| {
        JoinedBytesGrow(a, b, bytes);
        assert false;
      } else if |b| < |a| {
        JoinedBytesGrow(b, a, bytes);
        assert false;
      }
      ChunkingIsUnique(fragments[|a|..], left[1..], right[1..], bytes, 2);
      assert left == [a] + left[1..] && right == [b] + right[1..];
    }
  }

  lemma ChunksConcatenate<T>(fragments: seq<T>, bytes: T -> nat)
    requires Chunks(fragments, bytes).Some?
    ensures Flatten(Chunks(fragments, bytes).value) == fragments
  {
    ChunksAreAChunking(fragments, bytes);
    ChunkingConcatenates(fragments, Chunks(fragments, bytes).value, bytes, 0);
  }
}
