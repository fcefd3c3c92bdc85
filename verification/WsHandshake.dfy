/** Collecting the upstream's response head in the WebSocket proxy (simulator/src/proxy.rs). */
module WsHandshake {
  import opened Prelude

  /** CR LF CR LF. */
  const TERMINATOR: seq<Byte> := [13, 10, 13, 10]

  predicate TerminatorAt(s: seq<Byte>, i: int) {
    0 <= i && i + 4 <= |s| && s[i..i + 4] == TERMINATOR
  }

  predicate HasTerminator(s: seq<Byte>) {
    exists i :: 0 <= i < |s| && TerminatorAt(s, i)
  }

  function Concat(chunks: seq<seq<Byte>>): (r: seq<Byte>) {
    Flatten((chunk: seq<Byte>) => chunk, chunks)
  }

  /** After `k` reads the loop is still going: no terminator at any chunk boundary and no end of stream. */
  ghost predicate Unfinished(chunks: seq<seq<Byte>>, k: nat) {
    && k <= |chunks|
    && (forall m :: 0 <= m <= k ==> !HasTerminator(Concat(chunks[..m])))
    && (forall m :: 0 <= m < k ==> chunks[m] != [])
  }

  /** The loop ends after `k` reads with `resp`: at the first boundary behind a terminator, or at end of stream. */
  ghost predicate Stops(chunks: seq<seq<Byte>>, resp: seq<Byte>, k: nat) {
    && k <= |chunks| && resp == Concat(chunks[..k])
    && if HasTerminator(resp) then k > 0 && Unfinished(chunks, k - 1)
       else Unfinished(chunks, k) && (k == |chunks| || chunks[k] == [])
  }

  lemma ConcatSnoc(chunks: seq<seq<Byte>>, k: nat)
    requires k < |chunks|
    ensures Concat(chunks[..k + 1]) == Concat(chunks[..k]) + chunks[k]
  {
    assert chunks[..k + 1][..k] == chunks[..k];
  }

  /** The read loop. Read number `failAt` fails, if there is one; an empty or missing chunk is the end of the stream. */
  method ReadResponseHead(chunks: seq<seq<Byte>>, failAt: Option<nat>) returns (r: Option<seq<Byte>>, k: nat)
    ensures r.Some? ==> Stops(chunks, r.value, k)
    ensures r.None? ==> failAt == Some(k) && Unfinished(chunks, k)
  {
    k := 0;
    var resp: seq<Byte> := [];
    while true
      invariant Unfinished(chunks, k) && resp == Concat(chunks[..k])
      decreases |chunks| - k
    {
      if failAt == Some(k) { return None, k; }
      if k == |chunks| || chunks[k] == [] { break; }
      ConcatSnoc(chunks, k);
      resp := resp + chunks[k];
      k := k + 1;
      if HasTerminator(resp) { return Some(resp), k; }
    }
    r := Some(resp);
  }

  // ---- what the caller can rely on ----

  lemma ConcatSplit(chunks: seq<seq<Byte>>, k: nat)
    requires k <= |chunks|
    ensures Concat(chunks) == Concat(chunks[..k]) + Concat(chunks[k..])
  {
    FlattenAppend((chunk: seq<Byte>) => chunk, chunks[..k], chunks[k..]);
    assert chunks[..k] + chunks[k..] == chunks;
  }

  /** Where the first terminator starts. */
  ghost predicate FirstTerminator(s: seq<Byte>, i: nat) {
    TerminatorAt(s, i) && forall j :: 0 <= j < i ==> !TerminatorAt(s, j)
  }

  lemma {:induction false} FirstExists(s: seq<Byte>, k: nat) returns (i: nat)
    requires TerminatorAt(s, k)
    ensures i <= k && FirstTerminator(s, i)
  {
    if j: nat :| j < k && TerminatorAt(s, j) {
      i := FirstExists(s, j);
    } else {
      i := k;
    }
  }

  lemma TerminatorInPrefix(a: seq<Byte>, b: seq<Byte>, i: nat)
    requires i + 4 <= |a|
    ensures TerminatorAt(a, i) <==> TerminatorAt(a + b, i)
  {
    assert (a + b)[i..i + 4] == a[i..i + 4];
  }

  /** Bytes collected and bytes left over are the upstream's bytes, in order. */
  lemma NothingLost(chunks: seq<seq<Byte>>, resp: seq<Byte>, k: nat)
    requires Stops(chunks, resp, k)
    ensures resp + Concat(chunks[k..]) == Concat(chunks)
  {
    ConcatSplit(chunks, k);
  }

  /** The first terminator of the stream ends inside the last chunk that was read: at most that chunk is read too far. */
  lemma StopsInTime(chunks: seq<seq<Byte>>, resp: seq<Byte>, k: nat) returns (i: nat)
    requires Stops(chunks, resp, k) && HasTerminator(resp)
    ensures FirstTerminator(Concat(chunks), i) && i + 4 <= |resp| && resp[i..i + 4] == [13, 10, 13, 10]
    ensures k > 0 && |Concat(chunks[..k - 1])| < i + 4
  {
    var p :| 0 <= p < |resp| && TerminatorAt(resp, p);
    i := FirstExists(resp, p);
    var rest := Concat(chunks[k..]);
    ConcatSplit(chunks, k);
    forall j | 0 <= j <= i ensures TerminatorAt(resp, j) <==> TerminatorAt(Concat(chunks), j) {
      TerminatorInPrefix(resp, rest, j);
    }
    ConcatSnoc(chunks, k - 1);
    var before := Concat(chunks[..k - 1]);
    if i + 4 <= |before| {
      TerminatorInPrefix(before, chunks[k - 1], i);
    }
  }

  lemma PrefixesGrow(chunks: seq<seq<Byte>>, m: nat, k: nat)
    requires m <= k <= |chunks|
    ensures |Concat(chunks[..m])| <= |Concat(chunks[..k])|
  {
    ConcatSplit(chunks[..k], m);
    assert chunks[..k][..m] == chunks[..m];
  }

  /** The chunking has a cut at byte `n` of the stream. */
  ghost predicate CutAt(chunks: seq<seq<Byte>>, n: nat) {
    exists m :: 0 <= m <= |chunks| && |Concat(chunks[..m])| == n
  }

  /** The first terminator ends with the last chunk that was read exactly when the stream was cut there at all. */
  lemma CutIsLast(chunks: seq<seq<Byte>>, resp: seq<Byte>, k: nat, i: nat)
    requires Stops(chunks, resp, k) && HasTerminator(resp) && FirstTerminator(Concat(chunks), i)
    ensures i + 4 <= |resp| && (|resp| == i + 4 <==> CutAt(chunks, i + 4))
  {
    var j := StopsInTime(chunks, resp, k);
    assert j == i;
    if CutAt(chunks, i + 4) {
      var m :| 0 <= m <= |chunks| && |Concat(chunks[..m])| == i + 4;
      if m < k { PrefixesGrow(chunks, m, k - 1); } else { PrefixesGrow(chunks, k, m); }
    }
  }

  /**
    * After the upgrade only unread bytes are tunnelled. The client gets everything behind the head exactly when the
    * network cut the stream right behind it; otherwise the rest of that chunk is dropped.
    */
  lemma TunnelComplete(chunks: seq<seq<Byte>>, resp: seq<Byte>, k: nat, i: nat)
    requires Stops(chunks, resp, k) && HasTerminator(resp) && FirstTerminator(Concat(chunks), i)
    ensures i + 4 <= |resp| && Concat(chunks)[i + 4..] == resp[i + 4..] + Concat(chunks[k..])
    ensures Concat(chunks[k..]) == Concat(chunks)[i + 4..] <==> CutAt(chunks, i + 4)
  {
    CutIsLast(chunks, resp, k, i);
    ConcatSplit(chunks, k);
    var rest := Concat(chunks[k..]);
    assert (resp + rest)[i + 4..] == resp[i + 4..] + rest;
    assert |resp[i + 4..] + rest| == |resp| - (i + 4) + |rest|;
    if |resp| == i + 4 { assert resp[i + 4..] == []; }
  }

  /** A frame sent in the same chunk as the head is lost. */
  lemma EarlyFrameDropped(head: seq<Byte>, frame: seq<Byte>)
    requires frame != []
    ensures var chunk := head + TERMINATOR + frame;
            HasTerminator(chunk) && Stops([chunk], chunk, 1) && Concat([chunk][1..]) == []
  {
    var chunk := head + TERMINATOR + frame;
    assert TerminatorAt(chunk, |head|) by { assert chunk[|head|..|head| + 4] == TERMINATOR; }
    var chunks: seq<seq<Byte>> := [chunk];
    assert chunks[..1] == chunks;
    assert Concat(chunks[..0]) == [] && Concat(chunks[1..]) == [];
    ConcatSnoc(chunks, 0);
  }

  /** How the network cuts the stream into chunks does not matter: a head, if there is one, is always found, and is the same. */
  lemma ChunkingIrrelevant(chunks: seq<seq<Byte>>, resp: seq<Byte>, k: nat, i: nat)
    requires Stops(chunks, resp, k)
    requires forall m :: 0 <= m < |chunks| ==> chunks[m] != []
    requires FirstTerminator(Concat(chunks), i)
    ensures HasTerminator(resp)
    ensures i + 4 <= |resp| && resp[..i + 4] == Concat(chunks)[..i + 4]
  {
    assert HasTerminator(resp) by {
      if k == |chunks| {
        assert chunks[..k] == chunks;
        assert TerminatorAt(resp, i);
      }
    }
    var j := StopsInTime(chunks, resp, k);
    ConcatSplit(chunks, k);
    assert j == i;
  }
}
