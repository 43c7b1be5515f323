/** The slice of the runtime's circular buffer of pause times that covers the collections since the last look. */
module GcRing {
  import opened ByteStrings
  import opened Division

  /** `getGcPausesNs` */
  function GcPauses(pauseNs: seq<U64>, pre: U32, cur: U32): seq<U64> {
    var count := cur - pre;
    if count <= 0 then []
    else if count >= |pauseNs| then pauseNs
    else
      var i, j := pre % |pauseNs|, cur % |pauseNs|;
      if j < i then pauseNs[i..] + pauseNs[..j] else pauseNs[i..j]
  }

  /** After `cur` collections, the buffer holds the last of them: collection `n` at index `n` modulo its length. */
  predicate HoldsLast(pauseNs: seq<U64>, events: seq<U64>) {
    forall n | 0 <= n < |events| && |events| - |pauseNs| <= n :: pauseNs[n % |pauseNs|] == events[n]
  }

  lemma IndexOf(pre: nat, k: nat, length: nat)
    requires 0 <= k < length
    ensures (pre + k) % length == if pre % length + k < length then pre % length + k else pre % length + k - length
  {
    var q, r := pre / length, pre % length;
    var r' := if r + k < length then r + k else r + k - length;
    var q' := if r + k < length then q else q + 1;
    Subtract(q', q, length);
    Quotient(pre + k, length, q', r');
  }

  /** With fewer collections than the buffer holds, the slice is exactly those since `pre`, in order. */
  lemma PausesInOrder(pauseNs: seq<U64>, events: seq<U64>, pre: U32)
    requires HoldsLast(pauseNs, events) && |events| < TWO_32
    requires pre < |events| && |events| - pre < |pauseNs|
    ensures GcPauses(pauseNs, pre, |events|) == events[pre..]
  {
    var length, cur := |pauseNs|, |events|;
    var slice := GcPauses(pauseNs, pre, cur);
    IndexOf(pre, cur - pre, length);
    assert |slice| == cur - pre;
    forall k | 0 <= k < cur - pre ensures slice[k] == events[pre..][k] {
      IndexOf(pre, k, length);
      assert pauseNs[(pre + k) % length] == events[pre + k];
    }
  }

  /** With at least as many, it is the whole buffer: the last collections, rotated. */
  lemma PausesRotated(pauseNs: seq<U64>, events: seq<U64>, pre: U32)
    requires HoldsLast(pauseNs, events) && |events| < TWO_32
    requires pre < |events| && 0 < |pauseNs| <= |events| - pre
    ensures var s := |events| % |pauseNs|;
            var slice := GcPauses(pauseNs, pre, |events|);
            slice[s..] + slice[..s] == events[|events| - |pauseNs|..]
  {
    var length, cur := |pauseNs|, |events|;
    var s := cur % length;
    var from := cur - length;
    IndexOf(from, 0, length);
    Subtract(cur / length, 1, length);
    Quotient(from, length, cur / length - 1, s);
    forall k | 0 <= k < length ensures (pauseNs[s..] + pauseNs[..s])[k] == events[from..][k] {
      IndexOf(from, k, length);
      assert pauseNs[(from + k) % length] == events[from + k];
    }
  }

  /** Without a collection since the previous reading, and when the counter is behind it, there is nothing to report. */
  lemma NothingNew(pauseNs: seq<U64>, pre: U32, cur: U32)
    ensures cur <= pre ==> GcPauses(pauseNs, pre, cur) == []
    ensures pre < cur && pauseNs != [] ==> 0 < |GcPauses(pauseNs, pre, cur)| <= |pauseNs|
  {
    if pre < cur && cur - pre < |pauseNs| {
      IndexOf(pre, cur - pre, |pauseNs|);
    }
  }
}
