/**
 * The reverse scan over the reply's frames that Connect runs before it
 * builds a connection (QuicClient.HandleInitialFrames).
 *
 * The loop starts at the last index and counts down while the index is
 * greater than zero, so the frame at index 0 is never looked at. A close
 * frame throws with its reason phrase, a max-streams frame overwrites the
 * client's stream limit, and a padding frame ends the loop. The model keeps
 * the index-0 skip exactly as written.
 */
module FrameScan {
  import opened Wrappers
  import opened Packets

  /**
   * What one scan leaves behind: the stream limit after every write the
   * loop made (writes made before a close are kept, since they go straight
   * to the client's field), and the reason phrase of the close frame that
   * aborted the loop, if one did.
   */
  datatype ScanResult = ScanResult(maximumStreams: uint64, closeReason: Option<string>)

  /** A frame the loop steps past to the next lower index: neither a close (which throws) nor padding (which breaks). */
  predicate PassesThrough(f: Frame)
  {
    f.MaxStreamsFrame? || f.OtherFrame?
  }

  /** The loop as written: the body for index `i`, then the iterations for `i - 1` down to 1. */
  function Scan(frames: seq<Frame>, i: int, maximumStreams: uint64): ScanResult
    requires i < |frames|
    decreases i
  {
    if i <= 0 then ScanResult(maximumStreams, None)
    else
      match frames[i]
      case ConnectionCloseFrame(reason) => ScanResult(maximumStreams, Some(reason))
      case MaxStreamsFrame(n) => Scan(frames, i - 1, n)
      case PaddingFrame => ScanResult(maximumStreams, None)
      case OtherFrame => Scan(frames, i - 1, maximumStreams)
  }

  /**
   * Reference definition of what the loop visits: a scan that starts at
   * index `top` reaches index `k` when `k` is one of the indices it counts
   * through (1 to `top`) and every frame strictly above `k`, up to `top`,
   * let it continue.
   */
  ghost predicate ReachedFrom(frames: seq<Frame>, top: int, k: int)
  {
    1 <= k <= top < |frames| && forall j :: k < j <= top ==> PassesThrough(frames[j])
  }

  /** Index `k` is visited by the scan over the whole reply. */
  ghost predicate Reached(frames: seq<Frame>, k: int)
  {
    ReachedFrom(frames, |frames| - 1, k)
  }

  /** `k` holds the visited max-streams frame with the lowest index: the last one the loop writes. */
  ghost predicate LowestReachedMaxStreams(frames: seq<Frame>, top: int, k: int)
  {
    && ReachedFrom(frames, top, k)
    && frames[k].MaxStreamsFrame?
    && forall j :: ReachedFrom(frames, top, j) && j < k ==> !frames[j].MaxStreamsFrame?
  }

  /**
   * HandleInitialFrames on a reply's frames, given the client's stream limit
   * before the call. A close frame is reported in `closeReason` (the source
   * throws a connectivity error with it); the limit the loop leaves behind is
   * in `maximumStreams` either way.
   */
  function HandleInitialFrames(frames: seq<Frame>, maximumStreams: uint64): (r: ScanResult)
    // a visited close aborts the scan with exactly its reason phrase ...
    ensures forall k :: Reached(frames, k) && frames[k].ConnectionCloseFrame? ==>
              r.closeReason == Some(frames[k].reasonPhrase)
    // ... and nothing else aborts it
    ensures r.closeReason.Some? ==>
              exists k :: Reached(frames, k) && frames[k] == ConnectionCloseFrame(r.closeReason.value)
    // with no visited max-streams frame, the prior limit is kept
    ensures (forall k :: Reached(frames, k) ==> !frames[k].MaxStreamsFrame?) ==> r.maximumStreams == maximumStreams
    // otherwise the visited max-streams frame with the lowest index wins
    ensures forall k :: LowestReachedMaxStreams(frames, |frames| - 1, k) ==>
              r.maximumStreams == frames[k].maximumStreams
  {
    ScanCloseFrom(frames, |frames| - 1, maximumStreams);
    ScanMaxStreamsFrom(frames, |frames| - 1, maximumStreams);
    Scan(frames, |frames| - 1, maximumStreams)
  }

  /** Stepping past index `top` extends the reached set of the scan from `top - 1` by `top` itself. */
  lemma ReachedStep(frames: seq<Frame>, top: int)
    requires 1 <= top < |frames| && PassesThrough(frames[top])
    ensures forall k :: ReachedFrom(frames, top, k) <==> k == top || ReachedFrom(frames, top - 1, k)
  {
  }

  /** A close or a padding frame at `top` hides every lower index from the scan. */
  lemma ReachedBlocked(frames: seq<Frame>, top: int)
    requires 1 <= top < |frames| && !PassesThrough(frames[top])
    ensures forall k :: ReachedFrom(frames, top, k) <==> k == top
  {
  }

  /** The scan from `top` aborts exactly when it reaches a close frame, and with that frame's reason. */
  lemma {:induction false} ScanCloseFrom(frames: seq<Frame>, top: int, m: uint64)
    requires top < |frames|
    ensures Scan(frames, top, m).closeReason.Some? ==>
              exists k :: ReachedFrom(frames, top, k) && frames[k] == ConnectionCloseFrame(Scan(frames, top, m).closeReason.value)
    ensures forall k :: ReachedFrom(frames, top, k) && frames[k].ConnectionCloseFrame? ==>
              Scan(frames, top, m).closeReason == Some(frames[k].reasonPhrase)
    decreases top
  {
    if top <= 0 {
    } else if PassesThrough(frames[top]) {
      var m' := if frames[top].MaxStreamsFrame? then frames[top].maximumStreams else m;
      assert Scan(frames, top, m) == Scan(frames, top - 1, m');
      ScanCloseFrom(frames, top - 1, m');
      ReachedStep(frames, top);
    } else {
      ReachedBlocked(frames, top);
      assert ReachedFrom(frames, top, top);
    }
  }

  /** The stream limit the scan from `top` leaves: the lowest reached max-streams value, else the prior one. */
  lemma {:induction false} ScanMaxStreamsFrom(frames: seq<Frame>, top: int, m: uint64)
    requires top < |frames|
    ensures (forall k :: ReachedFrom(frames, top, k) ==> !frames[k].MaxStreamsFrame?) ==>
              Scan(frames, top, m).maximumStreams == m
    ensures forall k :: LowestReachedMaxStreams(frames, top, k) ==>
              Scan(frames, top, m).maximumStreams == frames[k].maximumStreams
    decreases top
  {
    if top <= 0 {
    } else if PassesThrough(frames[top]) {
      var m' := if frames[top].MaxStreamsFrame? then frames[top].maximumStreams else m;
      assert Scan(frames, top, m) == Scan(frames, top - 1, m');
      ScanMaxStreamsFrom(frames, top - 1, m');
      ReachedStep(frames, top);
      assert ReachedFrom(frames, top, top);
      forall k | LowestReachedMaxStreams(frames, top, k)
        ensures Scan(frames, top, m).maximumStreams == frames[k].maximumStreams
      {
        if k < top {
          assert LowestReachedMaxStreams(frames, top - 1, k);
        }
      }
    } else {
      ReachedBlocked(frames, top);
    }
  }

  /** Whether the scan aborts, and why, does not depend on the stream limit it starts with. */
  lemma {:induction false} ScanCloseIgnoresLimit(frames: seq<Frame>, top: int, m1: uint64, m2: uint64)
    requires top < |frames|
    ensures Scan(frames, top, m1).closeReason == Scan(frames, top, m2).closeReason
    decreases top
  {
    if top > 0 && frames[top].OtherFrame? {
      ScanCloseIgnoresLimit(frames, top - 1, m1, m2);
    }
  }

  /**
   * The scan from `top` reads nothing below index `lo`, provided `lo` is 1
   * (index 0 is never read) or holds a padding frame (where the loop breaks).
   */
  lemma {:induction false} ScanReadsFrom(frames: seq<Frame>, other: seq<Frame>, lo: int, top: int, m: uint64)
    requires |other| == |frames| && top < |frames|
    requires 1 <= lo && (lo == 1 || (lo < |frames| && frames[lo].PaddingFrame?))
    requires top <= 0 || lo <= top
    requires forall j :: lo <= j <= top ==> other[j] == frames[j]
    ensures Scan(other, top, m) == Scan(frames, top, m)
    decreases top
  {
    if top > 0 && PassesThrough(frames[top]) {
      var m' := if frames[top].MaxStreamsFrame? then frames[top].maximumStreams else m;
      ScanReadsFrom(frames, other, lo, top - 1, m');
    }
  }

  /**
   * The frame at index 0 never affects the outcome, whatever it is (a close
   * frame included), and a reply with at most one frame always succeeds and
   * leaves the stream limit as it was.
   */
  lemma ScanSkipsIndexZero(frames: seq<Frame>, first: Frame, m: uint64)
    requires |frames| >= 1
    ensures HandleInitialFrames(frames[0 := first], m) == HandleInitialFrames(frames, m)
    ensures |frames| == 1 ==> HandleInitialFrames(frames, m) == ScanResult(m, None)
  {
    var other := frames[0 := first];
    ScanReadsFrom(frames, other, 1, |frames| - 1, m);
    assert Scan(other, |other| - 1, m) == Scan(frames, |frames| - 1, m);
  }

  /** Example: a reply whose only frame is a close frame still passes the scan, because the close is at index 0. */
  lemma IndexZeroCloseIsIgnored(reason: string, m: uint64)
    ensures HandleInitialFrames([ConnectionCloseFrame(reason)], m) == ScanResult(m, None)
  {
  }

  /**
   * Once the scan meets a padding frame at index `p`, frames at lower indices
   * are never examined: any frames may stand there, close and max-streams
   * frames included, without changing the outcome.
   */
  lemma ScanStopsAtPadding(frames: seq<Frame>, p: int, below: seq<Frame>, m: uint64)
    requires 1 <= p < |frames| && frames[p].PaddingFrame?
    requires |below| == p
    ensures HandleInitialFrames(below + frames[p..], m) == HandleInitialFrames(frames, m)
    ensures forall k :: 0 <= k < p ==> !Reached(frames, k)
  {
    var other := below + frames[p..];
    assert forall j :: p <= j < |frames| ==> other[j] == frames[j];
    ScanReadsFrom(frames, other, p, |frames| - 1, m);
  }
}
