/** `HttpUtil`: the slicing of a world's chunk list into the batches that
    `streamChunkBatches` posts one timer tick at a time, the URL templates,
    the upload query, and which callbacks each request schedules. */
module BackendHttp {
  import opened JavaInts
  import opened JavaStrings
  import opened Coords

  // ----- batches -----

  /** The batches of `chunks` of `batchSize` items each, the last one possibly shorter. */
  function Batches(chunks: seq<ChunkCoord>, batchSize: int): seq<seq<ChunkCoord>>
    requires batchSize > 0
    decreases |chunks|
  {
    if |chunks| == 0 then []
    else
      var n := Min(batchSize, |chunks|);
      [chunks[..n]] + Batches(chunks[n..], batchSize)
  }

  /** The batches joined back together. */
  function Concat(batches: seq<seq<ChunkCoord>>): seq<ChunkCoord>
  {
    if batches == [] then [] else Concat(batches[..|batches| - 1]) + batches[|batches| - 1]
  }

  lemma {:induction false} ConcatAppend(a: seq<seq<ChunkCoord>>, b: seq<seq<ChunkCoord>>)
    ensures Concat(a + b) == Concat(a) + Concat(b)
    decreases |b|
  {
    if b == [] {
      assert a + b == a;
    } else {
      assert (a + b)[..|a + b| - 1] == a + b[..|b| - 1];
      ConcatAppend(a, b[..|b| - 1]);
    }
  }

  /** The batches cover the list exactly once, in order. */
  lemma {:induction false} BatchesCover(chunks: seq<ChunkCoord>, batchSize: int)
    requires batchSize > 0
    ensures Concat(Batches(chunks, batchSize)) == chunks
    decreases |chunks|
  {
    if |chunks| > 0 {
      var n := Min(batchSize, |chunks|);
      BatchesCover(chunks[n..], batchSize);
      ConcatAppend([chunks[..n]], Batches(chunks[n..], batchSize));
      assert Concat([chunks[..n]]) == chunks[..n] by {
        assert [chunks[..n]][..0] == [];
      }
      assert chunks[..n] + chunks[n..] == chunks;
    }
  }

  /** Every batch holds between one and `batchSize` chunks, and there are
      `ceil(|chunks| / batchSize)` of them. */
  lemma {:induction false} BatchesSized(chunks: seq<ChunkCoord>, batchSize: int)
    requires batchSize > 0
    ensures forall i :: 0 <= i < |Batches(chunks, batchSize)| ==> 0 < |Batches(chunks, batchSize)[i]| <= batchSize
    ensures |Batches(chunks, batchSize)| == (|chunks| + batchSize - 1) / batchSize
    ensures |Batches(chunks, batchSize)| <= |chunks|
    decreases |chunks|
  {
    if |chunks| == 0 {
      DivModUnique(batchSize - 1, batchSize, 0, batchSize - 1);
    } else {
      var n := Min(batchSize, |chunks|);
      BatchesSized(chunks[n..], batchSize);
      var rest := Batches(chunks[n..], batchSize);
      assert Batches(chunks, batchSize) == [chunks[..n]] + rest;
      forall i | 0 < i < 1 + |rest|
        ensures ([chunks[..n]] + rest)[i] == rest[i - 1]
      {
      }
      if n == batchSize {
        DivStep(|chunks| + batchSize - 1, batchSize);
      } else {
        DivModUnique(|chunks| + batchSize - 1, batchSize, 1, |chunks| - 1);
      }
    }
  }

  /** A further batch after a whole number of full batches is appended as one more batch. */
  lemma {:induction false} BatchesSnoc(prefix: seq<ChunkCoord>, next: seq<ChunkCoord>, batchSize: int)
    requires batchSize > 0 && |prefix| % batchSize == 0 && 0 < |next| <= batchSize
    ensures Batches(prefix + next, batchSize) == Batches(prefix, batchSize) + [next]
    decreases |prefix|
  {
    var s := prefix + next;
    if |prefix| == 0 {
      assert s == next;
      assert s[..|s|] == next && s[|s|..] == [];
      assert Batches(s, batchSize) == [s[..|s|]] + Batches(s[|s|..], batchSize);
    } else {
      if |prefix| < batchSize {
        DivModUnique(|prefix|, batchSize, 0, |prefix|);
      }
      DivStep(|prefix|, batchSize);
      assert s[..batchSize] == prefix[..batchSize];
      assert s[batchSize..] == prefix[batchSize..] + next;
      BatchesSnoc(prefix[batchSize..], next, batchSize);
    }
  }

  /** What one timer tick of `streamChunkBatches` did. */
  datatype Tick = Cancelled | Sent | Threw

  /** The `BukkitRunnable` of `streamChunkBatches` over its own copy of the
      chunk list; `sent` holds the batches handed to `sendBatchChunkUpdate`. */
  class ChunkBatchStream {
    const allChunks: seq<ChunkCoord>
    const total: int32
    const batchSize: int32
    var index: int32
    var batchCount: int32
    var sent: seq<seq<ChunkCoord>>
    var cancelled: bool

    /** The batches sent are the list's prefix up to `index`, cut into
        `batchSize` pieces, and `batchCount` counts them. */
    ghost predicate Valid()
      reads this
    {
      StreamState(allChunks, total, batchSize, index, batchCount, sent)
    }

    /** A Java list's size is an int. */
    constructor (chunkSet: seq<ChunkCoord>, batchSize: int32)
      requires |chunkSet| <= INT_MAX
      ensures Valid()
      ensures allChunks == chunkSet && this.batchSize == batchSize
      ensures index == 0 && batchCount == 0 && sent == [] && !cancelled
    {
      allChunks := chunkSet;
      total := |chunkSet|;
      this.batchSize := batchSize;
      index := 0;
      batchCount := 0;
      sent := [];
      cancelled := false;
    }

    /** One tick: cancel once the list is used up; otherwise send
        `[index, min(index + batchSize, total))` and advance to its end.
        A negative or wrapped-around end makes `subList` throw, and the
        tick changes nothing. */
    method Run() returns (tick: Tick)
      requires Valid() && !cancelled
      modifies this
      ensures Valid()
      ensures old(index) >= total ==>
                tick == Cancelled && cancelled && index == old(index) && sent == old(sent) && batchCount == old(batchCount)
      ensures old(index) < total ==>
                var end := Min(ToInt32(old(index) as int + batchSize as int), total);
                if end < old(index) then
                  tick == Threw && !cancelled && index == old(index) && sent == old(sent) && batchCount == old(batchCount)
                else
                  tick == Sent && !cancelled && index == end && sent == old(sent) + [allChunks[old(index)..end]] &&
                  batchCount == ToInt32(old(batchCount) as int + 1)
      ensures batchSize > 0 && old(index) < total && old(index) as int + batchSize as int <= INT_MAX ==>
                tick == Sent && index > old(index)
    {
      if index >= total {
        cancelled := true;
        return Cancelled;
      }
      var end: int32 := Min(ToInt32(index as int + batchSize as int), total);
      if end < index {
        return Threw;
      }
      var batch := allChunks[index..end];
      Advance(allChunks, total, batchSize, index, batchCount, sent, end);
      sent := sent + [batch];
      index := end;
      batchCount := ToInt32(batchCount as int + 1);
      return Sent;
    }
  }

  /** The stream's invariant over its fields. */
  ghost predicate StreamState(all: seq<ChunkCoord>, total: int32, batchSize: int32, index: int32, batchCount: int32,
                              sent: seq<seq<ChunkCoord>>)
  {
    total as int == |all| && 0 <= index <= total &&
    Concat(sent) == all[..index] &&
    batchCount == ToInt32(|sent|) &&
    (batchSize > 0 ==> sent == Batches(all[..index], batchSize) &&
                       (index < total ==> index as int % batchSize as int == 0))
  }

  /** Sending the next batch keeps the invariant. */
  lemma Advance(all: seq<ChunkCoord>, total: int32, batchSize: int32, index: int32, batchCount: int32,
                sent: seq<seq<ChunkCoord>>, end: int32)
    requires StreamState(all, total, batchSize, index, batchCount, sent)
    requires index < total && end == Min(ToInt32(index as int + batchSize as int), total) && index <= end
    ensures StreamState(all, total, batchSize, end, ToInt32(batchCount as int + 1), sent + [all[index..end]])
  {
    AdvanceKeepsCover(all, index as int, end as int, sent);
    if batchSize > 0 {
      AdvanceKeepsBatches(all, index as int, end as int, batchSize as int, sent);
    }
    WrapInner(|sent|, 1);
  }

  lemma AdvanceKeepsCover(all: seq<ChunkCoord>, index: int, end: int, sent: seq<seq<ChunkCoord>>)
    requires 0 <= index <= end <= |all| && Concat(sent) == all[..index]
    ensures Concat(sent + [all[index..end]]) == all[..end]
  {
    var s := sent + [all[index..end]];
    assert s[..|s| - 1] == sent;
    assert all[..index] + all[index..end] == all[..end];
  }

  lemma AdvanceKeepsBatches(all: seq<ChunkCoord>, index: int, end: int, batchSize: int, sent: seq<seq<ChunkCoord>>)
    requires batchSize > 0 && 0 <= index < end <= |all| && end == Min(index + batchSize, |all|)
    requires index % batchSize == 0 && sent == Batches(all[..index], batchSize)
    ensures sent + [all[index..end]] == Batches(all[..end], batchSize)
    ensures end < |all| ==> end % batchSize == 0
  {
    BatchesSnoc(all[..index], all[index..end], batchSize);
    assert all[..index] + all[index..end] == all[..end];
    if end < |all| {
      DivStep(end, batchSize);
    }
  }

  /** Once the stream has reached the end of its list, the batches sent
      cover the list exactly once, in order, each of at most `batchSize`
      chunks, and `batchCount` is `ceil(total / batchSize)`. */
  lemma StreamFinished(s: ChunkBatchStream)
    requires s.Valid() && s.batchSize > 0 && s.index == s.total
    ensures Concat(s.sent) == s.allChunks
    ensures forall i :: 0 <= i < |s.sent| ==> 0 < |s.sent[i]| <= s.batchSize
    ensures s.batchCount as int == (s.total as int + s.batchSize as int - 1) / s.batchSize as int
  {
    assert s.allChunks[..s.index] == s.allChunks;
    BatchesSized(s.allChunks, s.batchSize as int);
    assert |s.sent| <= s.total as int;
  }

  // ----- URLs -----

  /** `buildUrl`: every "%port%" of a configured URL replaced by the port's decimal text. */
  function BuildUrl(template: string, port: int32): string
  {
    Replace(template, "%port%", IntToString(port))
  }

  /** A template with one "%port%" gets the port in its place; one without any is left as it is. */
  lemma BuildUrlPort(before: string, after: string, port: int32)
    requires forall i :: 0 <= i < |before| ==> !OccursAt(before + "%port%" + after, "%port%", i)
    requires forall i :: 0 <= i <= |after| ==> !OccursAt(after, "%port%", i)
    ensures BuildUrl(before + "%port%" + after, port) == before + IntToString(port) + after
    ensures BuildUrl(after, port) == after
  {
    ReplaceOnce(before, "%port%", after, IntToString(port));
    ReplaceAbsent(after, "%port%", IntToString(port));
  }

  /** `String.valueOf(boolean)`. */
  function BoolText(b: bool): string { if b then "true" else "false" }

  /** `postZipBytes`: the `deleteExisting` parameter joins the query the URL
      already has, or starts one. */
  function WithDeleteFlag(url: string, deleteExisting: bool): (r: string)
    ensures StartsWith(r, url) && '?' in r
  {
    url + (if '?' in url then "&" else "?") + "deleteExisting=" + BoolText(deleteExisting)
  }

  /** Without a query in the URL, the text after its '?' is the flag alone. */
  lemma DeleteFlagStartsQuery(url: string, deleteExisting: bool)
    requires '?' !in url
    ensures var r := WithDeleteFlag(url, deleteExisting);
            r[IndexOf(r, '?') + 1..] == "deleteExisting=" + BoolText(deleteExisting)
  {
    var param := "deleteExisting=" + BoolText(deleteExisting);
    assert WithDeleteFlag(url, deleteExisting) == url + ['?'] + param;
    IndexOfAfter(url, '?', param);
  }

  /** With a query in the URL, the URL's query is kept up to its '?' and the
      flag is the last parameter, after an '&'. */
  lemma DeleteFlagJoinsQuery(url: string, deleteExisting: bool)
    requires '?' in url
    ensures var r := WithDeleteFlag(url, deleteExisting);
            IndexOf(r, '?') == IndexOf(url, '?') &&
            EndsWith(r, "&deleteExisting=" + BoolText(deleteExisting))
  {
    var tail := "&deleteExisting=" + BoolText(deleteExisting);
    assert WithDeleteFlag(url, deleteExisting) == url + tail;
    IndexOfAppend(url, tail);
    EndsWithAppend(url, tail);
  }

  /** Text appended after a '?' does not move the first '?'. */
  lemma IndexOfAppend(a: string, b: string)
    requires '?' in a
    ensures IndexOf(a + b, '?') == IndexOf(a, '?')
  {
    var k := IndexOf(a, '?');
    assert (a + b)[..k] == a[..k];
    IndexOfPrefix(a + b, k);
  }

  lemma EndsWithAppend(a: string, t: string)
    ensures EndsWith(a + t, t)
  {
    assert (a + t)[|a + t| - |t|..] == t;
  }

  /** The first occurrence of a character is found before any suffix is looked at. */
  lemma {:induction false} IndexOfPrefix(s: string, k: nat)
    requires k < |s| && s[k] == '?' && '?' !in s[..k]
    ensures IndexOf(s, '?') == k
    decreases k
  {
    if k > 0 {
      assert s[0] in s[..k];
      assert s[1..][..k - 1] == s[1..k];
      IndexOfPrefix(s[1..], k - 1);
    }
  }

  // ----- callbacks -----

  /** How a request ended: an exception, or a response with its status code. */
  datatype Response = Failed | Status(code: int)

  /** `HttpURLConnection.HTTP_OK`. */
  const HTTP_OK := 200

  /** The number of times `postJson` schedules `onComplete`: after the
      response whatever its code, and in the exception handler. */
  function PostJsonCompletions(response: Response, hasCallback: bool): (n: nat)
    ensures n == (if hasCallback then 1 else 0)
  {
    match response
    case Status(_) => if hasCallback then 1 else 0
    case Failed => if hasCallback then 1 else 0
  }

  /** The number of times `deleteRequest` schedules `onSuccess`: only after a 200 response. */
  function DeleteSuccesses(response: Response, hasCallback: bool): (n: nat)
    ensures n <= 1
    ensures n == 1 <==> hasCallback && response == Status(200)
  {
    match response
    case Status(code) => if code == 200 && hasCallback then 1 else 0
    case Failed => 0
  }

  /** The number of times `postZipBytes` schedules `onSuccess`: only after an `HTTP_OK` response. */
  function ZipUploadSuccesses(response: Response, hasCallback: bool): (n: nat)
    ensures n <= 1
    ensures n == 1 <==> hasCallback && response == Status(HTTP_OK)
  {
    if response.Status? && response.code == HTTP_OK && hasCallback then 1 else 0
  }
}
