/** The capture controller: the module-level flags `busy` and `snapped`,
    the `snap()` calls still suspended in their countdown or waiting for
    the encoded frame, the per-frame gesture check, and the retake button.

    `snap()` is an async function: every call that gets past the `busy`
    check runs on in steps, one per one-second countdown wait and one for
    the `toBlob` callback, and other events may come in between. The model
    keeps each such call as a pending session with the stage it is
    suspended in; the events of the page move them on one at a time. */
module Capture {
  import opened Gesture
  import Gallery

  /** Where a pending `snap()` call is suspended. */
  datatype Stage =
    | Counting(shown: nat)  // in the one-second wait after showing `shown` on the countdown
    | Encoding              // frame drawn, waiting for the `toBlob` callback

  /** The flags of the page, the pending `snap()` calls by the order they
      were made in, and whether the `detect` loop is still scheduled. */
  datatype Session = Session(
    busy: bool,
    snapped: bool,
    pending: map<nat, Stage>,
    nextId: nat,
    detecting: bool)

  /** The state once the page has started: no flag set, nothing pending, the
      `detect` loop running. */
  const Started := Session(false, false, map[], 0, true)

  /** What every reachable state satisfies: ids are handed out in order, a
      countdown always has a number left to show, and `busy` is only set
      while some `snap()` call is pending. */
  ghost predicate Inv(s: Session)
  {
    && (forall id :: id in s.pending ==> id < s.nextId)
    && (forall id :: id in s.pending && s.pending[id].Counting? ==> s.pending[id].shown > 0)
    && (s.busy ==> s.pending != map[])
  }

  /** The stage a new call enters: the countdown when the selected delay is
      positive, otherwise straight to drawing and encoding the frame. */
  function FirstStage(delay: int): Stage
  {
    if delay > 0 then Counting(delay) else Encoding
  }

  // ---------------------------------------------------------------------
  // The events
  // ---------------------------------------------------------------------

  /** `snap()` up to its first suspension: nothing while `busy`; otherwise
      both flags are set and a new call is pending. */
  function SnapStep(s: Session, delay: int): Session
  {
    if s.busy then s
    else s.(busy := true, snapped := true,
            pending := s.pending[s.nextId := FirstStage(delay)],
            nextId := s.nextId + 1)
  }

  /** The end of one countdown wait of call `id`: if `snapped` was cleared
      meanwhile the call clears `busy` and ends; otherwise it shows the next
      number, or, after the last one, draws the frame and starts encoding. */
  function TickStep(s: Session, id: nat): Session
  {
    if id !in s.pending || !s.pending[id].Counting? then s
    else if !s.snapped then s.(busy := false, pending := s.pending - {id})
    else if s.pending[id].shown > 1 then s.(pending := s.pending[id := Counting(s.pending[id].shown - 1)])
    else s.(pending := s.pending[id := Encoding])
  }

  /** The `toBlob` callback of call `id`: the photo is stored (see
      `Booth.BlobReady`), `busy` is cleared, `snapped` is left as it is. */
  function BlobStep(s: Session, id: nat): Session
  {
    if id in s.pending && s.pending[id] == Encoding then s.(busy := false, pending := s.pending - {id})
    else s
  }

  /** The retake button: both flags cleared; pending calls are not touched. */
  function RetakeStep(s: Session): Session
  {
    s.(snapped := false, busy := false)
  }

  /** Whether `detect` calls `snap()` on this frame: at least one hand, no
      flag set, and `isPeace` true of the first hand. */
  predicate GestureFires(s: Session, hands: seq<Hand>)
  {
    s.detecting && |hands| > 0 && !s.snapped && !s.busy && IsPeace(hands[0].landmarks) == Value(true)
  }

  /** One run of `detect` on the hands predicted for a frame. A TypeError in
      `isPeace` rejects the call before it schedules the next frame, so the
      loop stops for good. */
  function FrameStep(s: Session, hands: seq<Hand>, delay: int): Session
  {
    if !s.detecting || |hands| == 0 || s.snapped || s.busy then s
    else match IsPeace(hands[0].landmarks)
      case TypeError => s.(detecting := false)
      case Value(peace) => if peace then SnapStep(s, delay) else s
  }

  datatype Event =
    | SnapClick(delay: int)                 // the snap button, with the selected delay
    | TimerTick(id: nat)                    // a countdown wait of call `id` ends
    | BlobReady(id: nat)                    // the encoded frame of call `id` is ready
    | RetakeClick                           // the retake button
    | VideoFrame(hands: seq<Hand>, delay: int) // `detect` runs on a frame

  function Step(s: Session, e: Event): Session
  {
    match e
    case SnapClick(d) => SnapStep(s, d)
    case TimerTick(id) => TickStep(s, id)
    case BlobReady(id) => BlobStep(s, id)
    case RetakeClick => RetakeStep(s)
    case VideoFrame(hands, d) => FrameStep(s, hands, d)
  }

  function Run(s: Session, evs: seq<Event>): Session
    decreases |evs|
  {
    if evs == [] then s else Run(Step(s, evs[0]), evs[1..])
  }

  /** Whether the event adds a photo to the gallery. */
  predicate Captures(s: Session, e: Event)
  {
    e.BlobReady? && e.id in s.pending && s.pending[e.id] == Encoding
  }

  function CaptureCount(s: Session, evs: seq<Event>): nat
    decreases |evs|
  {
    if evs == [] then 0
    else (if Captures(s, evs[0]) then 1 else 0) + CaptureCount(Step(s, evs[0]), evs[1..])
  }

  function GestureCount(s: Session, evs: seq<Event>): nat
    decreases |evs|
  {
    if evs == [] then 0
    else (if evs[0].VideoFrame? && GestureFires(s, evs[0].hands) then 1 else 0)
         + GestureCount(Step(s, evs[0]), evs[1..])
  }

  // ---------------------------------------------------------------------
  // One event at a time
  // ---------------------------------------------------------------------

  /** `snap()` while busy changes nothing; otherwise it sets both flags and
      adds exactly one pending call, under a fresh id, leaving the others. */
  lemma SnapGuard(s: Session, delay: int)
    requires Inv(s)
    ensures s.busy ==> SnapStep(s, delay) == s
    ensures !s.busy ==>
      var r := SnapStep(s, delay);
      && r.busy && r.snapped && s.nextId !in s.pending
      && r.pending.Keys == s.pending.Keys + {s.nextId}
      && r.pending[s.nextId] == FirstStage(delay)
      && (forall id :: id in s.pending ==> r.pending[id] == s.pending[id])
  {
  }

  /** A countdown wait that ends after a retake ends its call: `busy` is
      false and the call is gone, so no frame is drawn and nothing reaches
      the gallery. */
  lemma TickAfterRetakeAborts(s: Session, id: nat)
    requires id in s.pending && s.pending[id].Counting?
    ensures var r := TickStep(RetakeStep(s), id);
      && !r.busy && !r.snapped
      && r.pending == s.pending - {id}
      && (forall other :: other in r.pending ==> r.pending[other] == s.pending[other])
  {
  }

  /** A retake while the frame is being encoded does not stop the photo
      from being stored: the callback has no flag check. */
  lemma RetakeDuringEncodingStillCaptures(s: Session, id: nat)
    requires id in s.pending && s.pending[id] == Encoding
    ensures Captures(RetakeStep(s), BlobReady(id))
  {
  }

  /** The invariant holds in every state the events can reach. */
  lemma StepKeepsInv(s: Session, e: Event)
    requires Inv(s)
    ensures Inv(Step(s, e))
  {
    match e
    case SnapClick(d) =>
      assert !s.busy ==> s.nextId in Step(s, e).pending;
    case TimerTick(id) =>
    case BlobReady(id) =>
    case RetakeClick =>
    case VideoFrame(hands, d) =>
      assert GestureFires(s, hands) ==> s.nextId in Step(s, e).pending;
  }

  lemma {:induction false} RunKeepsInv(s: Session, evs: seq<Event>)
    requires Inv(s)
    ensures Inv(Run(s, evs))
    decreases |evs|
  {
    if evs != [] {
      StepKeepsInv(s, evs[0]);
      RunKeepsInv(Step(s, evs[0]), evs[1..]);
    }
  }

  // ---------------------------------------------------------------------
  // One session at a time
  // ---------------------------------------------------------------------

  /** At most one call pending, `busy` exactly while one is, and `snapped`
      set while one is. */
  ghost predicate Exclusive(s: Session)
  {
    && Inv(s)
    && (forall a, b :: a in s.pending && b in s.pending ==> a == b)
    && (s.busy <==> s.pending != map[])
    && (s.pending != map[] ==> s.snapped)
  }

  /** Every event except a retake while a call is pending keeps sessions
      exclusive. */
  lemma StepKeepsExclusive(s: Session, e: Event)
    requires Exclusive(s)
    requires e.RetakeClick? ==> s.pending == map[]
    ensures Exclusive(Step(s, e))
  {
    StepKeepsInv(s, e);
    match e
    case SnapClick(d) =>
      if !s.busy {
        assert s.pending.Keys == {};
      }
    case TimerTick(id) =>
      if id in s.pending {
        assert s.pending.Keys == {id};
      }
    case BlobReady(id) =>
      if id in s.pending {
        assert s.pending.Keys == {id};
      }
    case RetakeClick =>
    case VideoFrame(hands, d) =>
  }

  /** A retake during the countdown of the only pending call is undone by
      that call's next wait: it ends, and the sessions are exclusive again. */
  lemma RetakeThenTickRestoresExclusive(s: Session, id: nat)
    requires Exclusive(s) && id in s.pending && s.pending[id].Counting?
    ensures var r := Run(s, [RetakeClick, TimerTick(id)]);
      Exclusive(r) && r.pending == map[] && !r.busy
    ensures CaptureCount(s, [RetakeClick, TimerTick(id)]) == 0
  {
    assert s.pending.Keys == {id};
    RunPair(s, RetakeClick, TimerTick(id));
  }

  /** Running a list of two events. */
  lemma RunPair(s: Session, e1: Event, e2: Event)
    ensures Run(s, [e1, e2]) == Step(Step(s, e1), e2)
    ensures CaptureCount(s, [e1, e2]) ==
      (if Captures(s, e1) then 1 else 0) + (if Captures(Step(s, e1), e2) then 1 else 0)
  {
    var evs := [e1, e2];
    assert evs[0] == e1 && evs[1..] == [e2];
    assert [e2][0] == e2 && [e2][1..] == [];
    var s1 := Step(s, e1);
    calc {
      Run(s, evs);
      Run(s1, [e2]);
      Run(Step(s1, e2), []);
    }
    calc {
      CaptureCount(s, evs);
      (if Captures(s, e1) then 1 else 0) + CaptureCount(s1, [e2]);
      (if Captures(s, e1) then 1 else 0) + (if Captures(s1, e2) then 1 else 0) + CaptureCount(Step(s1, e2), []);
    }
  }

  // ---------------------------------------------------------------------
  // The countdown
  // ---------------------------------------------------------------------

  function Ticks(id: nat, n: nat): (evs: seq<Event>)
    ensures |evs| == n
  {
    if n == 0 then [] else [TimerTick(id)] + Ticks(id, n - 1)
  }

  /** Running two event lists one after the other. */
  lemma {:induction false} RunAppend(s: Session, a: seq<Event>, b: seq<Event>)
    ensures Run(s, a + b) == Run(Run(s, a), b)
    ensures CaptureCount(s, a + b) == CaptureCount(s, a) + CaptureCount(Run(s, a), b)
    ensures GestureCount(s, a + b) == GestureCount(s, a) + GestureCount(Run(s, a), b)
    decreases |a|
  {
    if a == [] {
      assert a + b == b;
    } else {
      assert (a + b)[0] == a[0];
      assert (a + b)[1..] == a[1..] + b;
      RunAppend(Step(s, a[0]), a[1..], b);
    }
  }

  /** With `snapped` set, `n` waits of a countdown that still has more than
      `n` numbers to show just count it down, and capture nothing. */
  lemma {:induction false} CountdownRuns(s: Session, id: nat, n: nat)
    requires s.snapped && id in s.pending && s.pending[id].Counting? && n < s.pending[id].shown
    ensures Run(s, Ticks(id, n)) == s.(pending := s.pending[id := Counting(s.pending[id].shown - n)])
    ensures CaptureCount(s, Ticks(id, n)) == 0
    decreases n
  {
    if n > 0 {
      var evs := Ticks(id, n);
      assert evs[0] == TimerTick(id) && evs[1..] == Ticks(id, n - 1);
      var s' := TickStep(s, id);
      assert s' == s.(pending := s.pending[id := Counting(s.pending[id].shown - 1)]);
      CountdownRuns(s', id, n - 1);
      assert s'.pending[id := Counting(s'.pending[id].shown - (n - 1))] == s.pending[id := Counting(s.pending[id].shown - n)];
    }
  }

  /** A snap with a delay, `k` completed waits, a retake, and the next wait:
      the countdown is aborted before any frame is drawn, nothing is
      captured, and the page is back where it started. (With delay 5 and the
      retake while 3 is shown, `k` is 2.) */
  lemma {:induction false} RetakeAbortsCountdown(s: Session, delay: nat, k: nat)
    requires Exclusive(s) && !s.busy && k < delay
    ensures var evs := [SnapClick(delay)] + Ticks(s.nextId, k) + [RetakeClick, TimerTick(s.nextId)];
      var r := Run(s, evs);
      && CaptureCount(s, evs) == 0
      && r.pending == map[] && !r.busy && !r.snapped && Exclusive(r)
  {
    var id := s.nextId;
    var s1 := SnapStep(s, delay);
    assert s.pending == map[];
    assert s1.pending == map[id := Counting(delay)];
    assert Run(s, [SnapClick(delay)]) == s1 by {
      assert [SnapClick(delay)][1..] == [];
    }
    assert CaptureCount(s, [SnapClick(delay)]) == 0 by {
      assert [SnapClick(delay)][1..] == [];
    }
    CountdownRuns(s1, id, k);
    var s2 := Run(s1, Ticks(id, k));
    assert s2.pending == map[id := Counting(delay - k)];
    assert Exclusive(s2) by {
      assert s2.pending.Keys == {id};
    }
    RetakeThenTickRestoresExclusive(s2, id);
    RunAppend(s, [SnapClick(delay)], Ticks(id, k));
    RunAppend(s, [SnapClick(delay)] + Ticks(id, k), [RetakeClick, TimerTick(id)]);
    RunPair(s2, RetakeClick, TimerTick(id));
  }

  // ---------------------------------------------------------------------
  // The gesture trigger
  // ---------------------------------------------------------------------

  /** Only a retake clears `snapped`. */
  lemma SnappedStays(s: Session, e: Event)
    requires s.snapped && !e.RetakeClick?
    ensures Step(s, e).snapped
  {
  }

  /** Without a retake, `detect` calls `snap()` at most once, and not at all
      once `snapped` is set: a capture clears `busy` but not `snapped`. */
  lemma {:induction false} GestureAtMostOnce(s: Session, evs: seq<Event>)
    requires forall k :: 0 <= k < |evs| ==> !evs[k].RetakeClick?
    ensures GestureCount(s, evs) <= if s.snapped then 0 else 1
    decreases |evs|
  {
    if evs != [] {
      var s' := Step(s, evs[0]);
      GestureAtMostOnce(s', evs[1..]);
      if evs[0].VideoFrame? && GestureFires(s, evs[0].hands) {
        assert s'.snapped;
      } else if s.snapped {
        SnappedStays(s, evs[0]);
      }
    }
  }

  /** `detect` calls `snap()` on exactly the frames where `GestureFires`
      holds: then it is the snap of an idle page, otherwise no session is
      started and the flags stay as they were. */
  lemma FrameStepSnapsExactlyWhenFires(s: Session, hands: seq<Hand>, delay: int)
    ensures GestureFires(s, hands) ==> !s.busy && FrameStep(s, hands, delay) == SnapStep(s, delay)
    ensures FrameStep(s, hands, delay).nextId == s.nextId + (if GestureFires(s, hands) then 1 else 0)
    ensures !GestureFires(s, hands) ==>
      var r := FrameStep(s, hands, delay);
      r.pending == s.pending && r.busy == s.busy && r.snapped == s.snapped
  {
  }

  /** Over a run of video frames, the sessions started are exactly the
      frames counted by `GestureCount`. */
  lemma {:induction false} FramesStartOneSessionPerFire(s: Session, evs: seq<Event>)
    requires forall k :: 0 <= k < |evs| ==> evs[k].VideoFrame?
    ensures Run(s, evs).nextId == s.nextId + GestureCount(s, evs)
    decreases |evs|
  {
    if evs != [] {
      FrameStepSnapsExactlyWhenFires(s, evs[0].hands, evs[0].delay);
      FramesStartOneSessionPerFire(Step(s, evs[0]), evs[1..]);
    }
  }

  /** `detect` on a run of frames, all with the selected delay. */
  function Frames(frames: seq<seq<Hand>>, delay: int): (evs: seq<Event>)
    ensures |evs| == |frames|
    ensures forall k :: 0 <= k < |frames| ==> evs[k] == VideoFrame(frames[k], delay)
  {
    seq(|frames|, k requires 0 <= k < |frames| => VideoFrame(frames[k], delay))
  }

  /** A gesture episode: on a page with no flag set, a run of frames that
      all show the peace sign calls `snap()` exactly once. */
  lemma PeaceEpisodeFiresOnce(s: Session, frames: seq<seq<Hand>>, delay: int)
    requires s.detecting && !s.busy && !s.snapped && |frames| > 0
    requires forall k :: 0 <= k < |frames| ==> |frames[k]| > 0 && IsPeace(frames[k][0].landmarks) == Value(true)
    ensures GestureCount(s, Frames(frames, delay)) == 1
    ensures Run(s, Frames(frames, delay)).nextId == s.nextId + 1
  {
    var evs := Frames(frames, delay);
    var s' := Step(s, evs[0]);
    assert s'.snapped;
    GestureAtMostOnce(s', evs[1..]);
    FramesStartOneSessionPerFire(s, evs);
  }

  /** One event other than a snap click: each photo it stores ends a
      pending call, and it adds a pending call only when the gesture fires. */
  lemma StepBoundsCaptures(s: Session, e: Event)
    requires Inv(s) && !e.SnapClick?
    ensures var r := Step(s, e);
      (if Captures(s, e) then 1 else 0) + |r.pending.Keys|
        <= |s.pending.Keys| + (if e.VideoFrame? && GestureFires(s, e.hands) then 1 else 0)
  {
    match e
    case TimerTick(id) => TickShrinksPending(s, id);
    case BlobReady(id) => BlobEndsItsCall(s, id);
    case RetakeClick =>
    case VideoFrame(hands, d) => FrameAddsAtMostOneCall(s, hands, d);
  }

  /** A countdown wait never adds a pending call. */
  lemma TickShrinksPending(s: Session, id: nat)
    ensures |TickStep(s, id).pending.Keys| <= |s.pending.Keys|
  {
    var r := TickStep(s, id);
    assert r.pending.Keys <= s.pending.Keys;
    assert s.pending.Keys == r.pending.Keys + (s.pending.Keys - r.pending.Keys);
  }

  /** A `toBlob` callback that stores a photo ends its own call. */
  lemma BlobEndsItsCall(s: Session, id: nat)
    ensures (if Captures(s, BlobReady(id)) then 1 else 0) + |BlobStep(s, id).pending.Keys| <= |s.pending.Keys|
  {
    if Captures(s, BlobReady(id)) {
      assert BlobStep(s, id).pending.Keys == s.pending.Keys - {id};
    }
  }

  /** A frame adds a pending call only when the gesture fires. */
  lemma FrameAddsAtMostOneCall(s: Session, hands: seq<Hand>, delay: int)
    requires Inv(s)
    ensures |FrameStep(s, hands, delay).pending.Keys| <= |s.pending.Keys| + (if GestureFires(s, hands) then 1 else 0)
  {
    if GestureFires(s, hands) {
      assert s.nextId !in s.pending;
      assert FrameStep(s, hands, delay).pending.Keys == s.pending.Keys + {s.nextId};
    } else {
      assert FrameStep(s, hands, delay).pending == s.pending;
    }
  }

  /** Without snap clicks, the photos stored plus the calls still pending
      never exceed the calls pending at the start plus the gesture's
      `snap()` calls. */
  lemma {:induction false} CapturesBoundedBySessions(s: Session, evs: seq<Event>)
    requires Inv(s)
    requires forall k :: 0 <= k < |evs| ==> !evs[k].SnapClick?
    ensures CaptureCount(s, evs) + |Run(s, evs).pending.Keys| <= |s.pending.Keys| + GestureCount(s, evs)
    decreases |evs|
  {
    if evs != [] {
      StepBoundsCaptures(s, evs[0]);
      StepKeepsInv(s, evs[0]);
      CapturesBoundedBySessions(Step(s, evs[0]), evs[1..]);
    }
  }

  /** From a page with nothing pending, any run of frames, countdown waits
      and `toBlob` callbacks without a snap click or a retake stores at most
      one photo, and none once `snapped` is already set: the gesture fires
      at most once, and a capture clears `busy` but not `snapped`. */
  lemma GestureAddsAtMostOnePhoto(s: Session, evs: seq<Event>)
    requires Inv(s) && s.pending == map[]
    requires forall k :: 0 <= k < |evs| ==> !evs[k].SnapClick? && !evs[k].RetakeClick?
    ensures CaptureCount(s, evs) <= if s.snapped then 0 else 1
  {
    CapturesBoundedBySessions(s, evs);
    GestureAtMostOnce(s, evs);
  }

  /** Nothing turns the `detect` loop back on once it has stopped. */
  lemma {:induction false} StoppedDetectionNeverFires(s: Session, evs: seq<Event>)
    requires !s.detecting
    ensures GestureCount(s, evs) == 0 && !Run(s, evs).detecting
    decreases |evs|
  {
    if evs != [] {
      StoppedDetectionNeverFires(Step(s, evs[0]), evs[1..]);
    }
  }

  /** A hand with too few landmarks whose first comparison holds makes
      `isPeace` throw, which stops the `detect` loop. */
  lemma ShortHandStopsDetection(s: Session, hand: Hand, delay: int)
    requires s.detecting && !s.busy && !s.snapped
    requires IndexTip < |hand.landmarks| <= MiddleTip
    requires hand.landmarks[IndexTip].y < hand.landmarks[IndexPip].y
    ensures !FrameStep(s, [hand], delay).detecting
  {
  }

  // ---------------------------------------------------------------------
  // A retake followed quickly by another snap
  // ---------------------------------------------------------------------

  /** The retake does not end the first countdown by itself: it only clears
      `snapped`, which that call reads when its wait ends. A new snap that
      comes before then sets `snapped` again, so the first countdown goes
      on, and the two calls together add two photos. */
  lemma RetakeThenSnapKeepsOldCountdown()
    ensures var evs := [SnapClick(1), RetakeClick, SnapClick(1), TimerTick(0), TimerTick(1), BlobReady(0), BlobReady(1)];
      CaptureCount(Started, evs) == 2
  {
    var s1 := SnapStep(Started, 1);
    var s2 := RetakeStep(s1);
    var s3 := SnapStep(s2, 1);
    assert s3.pending == map[0 := Counting(1), 1 := Counting(1)];
    var s4 := TickStep(s3, 0);
    assert s4.pending == map[0 := Encoding, 1 := Counting(1)];
    var s5 := TickStep(s4, 1);
    assert s5.pending == map[0 := Encoding, 1 := Encoding];
    var s6 := BlobStep(s5, 0);
    assert Captures(s5, BlobReady(0));
    assert s6.pending == map[1 := Encoding];
    assert Captures(s6, BlobReady(1));
    var evs := [SnapClick(1), RetakeClick, SnapClick(1), TimerTick(0), TimerTick(1), BlobReady(0), BlobReady(1)];
    RunAppend(Started, [SnapClick(1), RetakeClick, SnapClick(1)], [TimerTick(0), TimerTick(1), BlobReady(0), BlobReady(1)]);
    assert evs == [SnapClick(1), RetakeClick, SnapClick(1)] + [TimerTick(0), TimerTick(1), BlobReady(0), BlobReady(1)];
    assert CaptureCount(Started, [SnapClick(1), RetakeClick, SnapClick(1)]) == 0;
    assert Run(Started, [SnapClick(1), RetakeClick, SnapClick(1)]) == s3;
    assert CaptureCount(s3, [TimerTick(0), TimerTick(1), BlobReady(0), BlobReady(1)]) == 2;
  }

  // ---------------------------------------------------------------------
  // The page's state
  // ---------------------------------------------------------------------

  class Booth {
    var busy: bool
    var snapped: bool
    /** The `snap()` calls still suspended, by id. */
    var pending: map<nat, Stage>
    var nextId: nat
    /** Whether `detect` is still scheduled for the next frame. */
    var detecting: bool
    /** `lastImageURL`: the object URL of the last capture. */
    var lastImageURL: Gallery.Option<string>
    /** Every object URL created for a capture, and those revoked since. */
    ghost var issued: set<string>
    ghost var revoked: set<string>
    const gallery: Gallery.GalleryStore

    ghost function State(): Session
      reads this
    {
      Session(busy, snapped, pending, nextId, detecting)
    }

    ghost predicate Valid()
      reads this, gallery
    {
      && gallery.Valid()
      && Inv(State())
      && revoked <= issued
      && (lastImageURL.Some? ==> lastImageURL.value in issued && lastImageURL.value !in revoked)
    }

    /** Page load up to the start of the `detect` loop. */
    constructor (stored: Gallery.Option<seq<string>>)
      ensures Valid() && fresh(gallery)
      ensures State() == Started
      ensures lastImageURL == Gallery.None && issued == {}
      ensures gallery.images == if stored.Some? then stored.value else []
    {
      busy, snapped := false, false;
      pending, nextId := map[], 0;
      detecting := true;
      lastImageURL := Gallery.None;
      issued, revoked := {}, {};
      gallery := new Gallery.GalleryStore.Load(stored);
    }

    /** `snap()` up to its first suspension. */
    method Snap(delay: int)
      requires Valid()
      modifies this
      ensures Valid()
      ensures State() == SnapStep(old(State()), delay)
      ensures lastImageURL == old(lastImageURL) && issued == old(issued) && revoked == old(revoked)
    {
      if busy {
        return;
      }
      busy := true;
      snapped := true;
      pending := pending[nextId := FirstStage(delay)];
      nextId := nextId + 1;
    }

    /** The end of one countdown wait of call `id`: the flag check and the
        next turn of the `for` loop. */
    method Tick(id: nat)
      requires Valid() && id in pending && pending[id].Counting?
      modifies this
      ensures Valid()
      ensures State() == TickStep(old(State()), id)
      ensures lastImageURL == old(lastImageURL) && issued == old(issued) && revoked == old(revoked)
    {
      var i := pending[id].shown;
      if !snapped {
        busy := false;
        pending := pending - {id};
        return;
      }
      i := i - 1;
      if i > 0 {
        pending := pending[id := Counting(i)];
      } else {
        pending := pending[id := Encoding];
      }
    }

    /** The whole countdown of call `id` when no other event comes in
        between: the `for` loop of `snap()` from where it is suspended. */
    method RunCountdown(id: nat)
      requires Valid() && id in pending && pending[id].Counting?
      modifies this
      ensures Valid()
      ensures old(snapped) ==> State() == old(State()).(pending := old(pending)[id := Encoding])
      ensures !old(snapped) ==> State() == old(State()).(busy := false, pending := old(pending) - {id})
      ensures lastImageURL == old(lastImageURL) && issued == old(issued) && revoked == old(revoked)
    {
      while id in pending && pending[id].Counting?
        invariant Valid()
        invariant snapped == old(snapped) && nextId == old(nextId) && detecting == old(detecting)
        invariant lastImageURL == old(lastImageURL) && issued == old(issued) && revoked == old(revoked)
        invariant id in pending ==> busy == old(busy) && pending == old(pending)[id := pending[id]]
        invariant old(snapped) ==> id in pending
        invariant !old(snapped) && id in pending ==> pending == old(pending)
        invariant id !in pending ==> !busy && pending == old(pending) - {id}
        decreases if id in pending && pending[id].Counting? then pending[id].shown else 0
      {
        Tick(id);
      }
    }

    /** The `toBlob` callback of call `id`, given the object URL the browser
        creates for the encoded frame: the previous capture's URL is
        revoked, the new one becomes the last capture and goes first in the
        gallery, and `busy` is cleared. */
    method BlobReady(id: nat, url: string)
      requires Valid() && id in pending && pending[id] == Encoding
      requires url !in issued
      modifies this, gallery
      ensures Valid()
      ensures State() == BlobStep(old(State()), id)
      ensures gallery.images == [url] + old(gallery.images)
      ensures lastImageURL == Gallery.Some(url) && issued == old(issued) + {url}
      ensures revoked == old(revoked) + if old(lastImageURL).Some? then {old(lastImageURL).value} else {}
    {
      if lastImageURL.Some? {
        revoked := revoked + {lastImageURL.value};
      }
      lastImageURL := Gallery.Some(url);
      issued := issued + {url};
      gallery.Add(url);
      busy := false;
      pending := pending - {id};
    }

    /** The retake button. */
    method Retake()
      requires Valid()
      modifies this
      ensures Valid()
      ensures State() == RetakeStep(old(State()))
      ensures lastImageURL == old(lastImageURL) && issued == old(issued) && revoked == old(revoked)
    {
      snapped := false;
      busy := false;
    }

    /** One run of `detect` on the hands the model predicts for a frame. */
    method Detect(hands: seq<Hand>, delay: int)
      requires Valid()
      modifies this
      ensures Valid()
      ensures State() == FrameStep(old(State()), hands, delay)
      ensures lastImageURL == old(lastImageURL) && issued == old(issued) && revoked == old(revoked)
    {
      if !detecting {
        return;
      }
      if |hands| > 0 && !snapped && !busy {
        var verdict := IsPeace(hands[0].landmarks);
        if verdict.TypeError? {
          detecting := false;
          return;
        }
        if verdict.peace {
          Snap(delay);
        }
      }
    }
  }
}
