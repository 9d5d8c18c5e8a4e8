/** Bounded tails: the captured output of a job (internal/jobs/manager.go) and the run history of a task. */
module Tails {

  /** The last n elements of s, or all of them. */
  function Last<T>(s: seq<T>, n: nat): (t: seq<T>)
    ensures |t| == if |s| <= n then |s| else n
  {
    if |s| <= n then s else s[|s| - n..]
  }

  /** Cutting to the tail before adding more loses nothing of the final tail. */
  lemma TailOfTail<T>(a: seq<T>, b: seq<T>, n: nat)
    ensures Last(Last(a, n) + b, n) == Last(a + b, n)
  {
    if |a| > n {
      var cut := |a| - n;
      assert (Last(a, n) + b) == (a + b)[cut..];
    }
  }

  function Concat(chunks: seq<string>): string {
    if chunks == [] then "" else Concat(chunks[..|chunks| - 1]) + chunks[|chunks| - 1]
  }

  /** What a job records after each read that returned data, for this sequence of reads. */
  function Recorded(chunks: seq<string>, n: nat): seq<string> {
    if chunks == [] then []
    else
      var front, last := chunks[..|chunks| - 1], chunks[|chunks| - 1];
      Recorded(front, n) + if last == "" then [] else [Last(Concat(chunks), n)]
  }

  /**
   * The collector loop over the successive reads of a stream. However the stream is cut into reads, each non-empty
   * read leaves in the job exactly the last tailSize bytes read so far.
   */
  method Collect(chunks: seq<string>, tailSize: nat) returns (stdout: string, recorded: seq<string>)
    ensures recorded == Recorded(chunks, tailSize)
    ensures stdout == Last(Concat(chunks), tailSize)
  {
    var tail := "";
    stdout, recorded := "", [];
    for i := 0 to |chunks|
      invariant tail == stdout == Last(Concat(chunks[..i]), tailSize)
      invariant recorded == Recorded(chunks[..i], tailSize)
    {
      var buf := chunks[i];
      assert chunks[..i + 1][..i] == chunks[..i];
      TailOfTail(Concat(chunks[..i]), buf, tailSize);
      if |buf| > 0 {
        tail := tail + buf;
        if |tail| > tailSize {
          tail := tail[|tail| - tailSize..];
        }
        stdout := tail;
        recorded := recorded + [stdout];
      } else {
        assert Concat(chunks[..i]) + "" == Concat(chunks[..i]);
      }
    }
    assert chunks[..|chunks|] == chunks;
  }

  /** Two cuts of the same bytes into reads end with the same recorded output. */
  lemma ChunkingIsIrrelevant(chunks: seq<string>, other: seq<string>, n: nat)
    requires Concat(chunks) == Concat(other) && Concat(chunks) != ""
    ensures Recorded(chunks, n) != [] && Recorded(other, n) != []
    ensures Recorded(chunks, n)[|Recorded(chunks, n)| - 1] == Recorded(other, n)[|Recorded(other, n)| - 1]
  {
    LastRecorded(chunks, n);
    LastRecorded(other, n);
  }

  lemma {:induction false} LastRecorded(chunks: seq<string>, n: nat)
    requires Concat(chunks) != ""
    ensures Recorded(chunks, n) != [] && Recorded(chunks, n)[|Recorded(chunks, n)| - 1] == Last(Concat(chunks), n)
  {
    if chunks[|chunks| - 1] == "" {
      LastRecorded(chunks[..|chunks| - 1], n);
      assert Concat(chunks) == Concat(chunks[..|chunks| - 1]);
    }
  }
}
