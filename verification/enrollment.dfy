/** `register_new_user` (main.py:69-127): insert the user row, extend the
    cache, collect face samples on the operator's `c` key, and train the
    recognizer only when the sample target was reached. */
module Enrollment {
  import opened Store
  import opened IdentityCache
  import opened Camera
  import opened FaceModel
  import opened AttendanceSystem

  /** The number of samples an enrollment needs (main.py:109, 120). */
  const SampleTarget: nat := 20

  /** One iteration of the capture loop: the faces detected in the frame and
      the key read after it is shown. */
  datatype CaptureFrame = CaptureFrame(faces: seq<Region>, key: Key)

  datatype Phase =
    | Capturing      // still inside `while True`
    | TargetReached  // left by the `break` at main.py:110
    | Quit           // left by the `break` at main.py:115

  /** The loop's local state: `face_samples`, `sample_count`, the messages
      printed so far and the number of frames the loop has read. */
  datatype Capture = Capture(
    samples: seq<Sample>,
    count: nat,
    phase: Phase,
    notices: seq<Notice>,
    seen: nat)

  /** The state before the first frame (main.py:84-85). */
  const Start: Capture := Capture([], 0, Capturing, [], 0)

  /** The buffer always holds `count` normalized samples, the count never
      passes the target, and the target is reached exactly when the loop
      left through the sample `break`. */
  predicate CaptureInv(c: Capture) {
    && |c.samples| == c.count <= SampleTarget
    && (c.phase == TargetReached <==> c.count == SampleTarget)
    && forall i :: 0 <= i < |c.samples| ==> IsNormalized(c.samples[i])
  }

  /** A frame whose key press is a capture that the loop accepts. */
  predicate Accepts(f: CaptureFrame) {
    f.key == CaptureKey && |f.faces| == 1
  }

  /** One pass of the loop body (main.py:99-115). */
  function CaptureStep(c: Capture, f: CaptureFrame): (r: Capture)
    requires c.phase == Capturing
    ensures r.seen == c.seen + 1
    ensures Accepts(f) ==> r.samples == c.samples + [Normalize(f.faces[0])] && r.count == c.count + 1
    ensures !Accepts(f) ==> r.samples == c.samples && r.count == c.count
    ensures r.phase == Quit <==> f.key == QuitKey
    ensures r.phase == TargetReached <==> Accepts(f) && c.count + 1 >= SampleTarget
    ensures f.key == CaptureKey && |f.faces| != 1 ==> r.notices == c.notices + [NeedOneFace]
    ensures !(f.key == CaptureKey && |f.faces| != 1) ==> r.notices == c.notices
    ensures CaptureInv(c) ==> CaptureInv(r)
  {
    var c := c.(seen := c.seen + 1);
    if f.key == CaptureKey then
      if |f.faces| == 1 then
        var added := c.(samples := c.samples + [Normalize(f.faces[0])], count := c.count + 1);
        if added.count >= SampleTarget then added.(phase := TargetReached) else added
      else
        c.(notices := c.notices + [NeedOneFace])
    else if f.key == QuitKey then
      c.(phase := Quit)
    else
      c
  }

  /** The `while True` loop over the frames it reads, in order. Frames left
      over after a `break` are never read; running out of frames leaves the
      loop still capturing. */
  function CaptureLoop(c: Capture, frames: seq<CaptureFrame>): (r: Capture)
    requires CaptureInv(c)
    ensures CaptureInv(r)
    ensures c.seen <= r.seen <= c.seen + |frames|
    ensures c.phase != Capturing ==> r == c
    ensures r.phase == Capturing ==> r.seen == c.seen + |frames|
    ensures r.count >= c.count
    decreases |frames|
  {
    if c.phase != Capturing || frames == [] then c
    else CaptureLoop(CaptureStep(c, frames[0]), frames[1..])
  }

  /** Reference definition: the samples of every accepted capture among
      `frames`, in order. */
  function AcceptedSamples(frames: seq<CaptureFrame>): seq<Sample> {
    if frames == [] then []
    else (if Accepts(frames[0]) then [Normalize(frames[0].faces[0])] else [])
         + AcceptedSamples(frames[1..])
  }

  /** The collected buffer is the accepted captures among the frames read. */
  lemma {:induction false} CaptureLoopSamples(c: Capture, frames: seq<CaptureFrame>)
    requires CaptureInv(c) && c.phase == Capturing
    ensures var r := CaptureLoop(c, frames);
      r.samples == c.samples + AcceptedSamples(frames[..r.seen - c.seen])
    decreases |frames|
  {
    var r := CaptureLoop(c, frames);
    var n := r.seen - c.seen;
    if frames == [] {
      assert frames[..n] == [];
    } else {
      var c1 := CaptureStep(c, frames[0]);
      var head := if Accepts(frames[0]) then [Normalize(frames[0].faces[0])] else [];
      assert c1.samples == c.samples + head;
      assert n >= 1;
      assert frames[..n][0] == frames[0];
      assert frames[..n][1..] == frames[1..][..n - 1];
      assert AcceptedSamples(frames[..n]) == head + AcceptedSamples(frames[1..][..n - 1]);
      if c1.phase != Capturing {
        assert n == 1;
        assert frames[1..][..0] == [];
      } else {
        CaptureLoopSamples(c1, frames[1..]);
      }
    }
  }

  /** No frame before the last one read was a `q`; a quit ends on a `q`
      frame, and reaching the target ends on an accepted capture. */
  lemma {:induction false} CaptureLoopExit(c: Capture, frames: seq<CaptureFrame>)
    requires CaptureInv(c) && c.phase == Capturing
    ensures var r := CaptureLoop(c, frames);
      var n := r.seen - c.seen;
      && (forall j :: 0 <= j < n - 1 ==> frames[j].key != QuitKey)
      && (r.phase == Quit ==> n >= 1 && frames[n - 1].key == QuitKey)
      && (r.phase == TargetReached ==> n >= 1 && Accepts(frames[n - 1]))
    decreases |frames|
  {
    if frames != [] {
      var c1 := CaptureStep(c, frames[0]);
      if c1.phase == Capturing {
        var rest := frames[1..];
        CaptureLoopExit(c1, rest);
        assert forall j :: 1 <= j < |frames| ==> frames[j] == rest[j - 1];
      }
    }
  }

  /** The buffer the loop collects is exactly the accepted captures among the
      frames it read; no frame before the last one read was a quit; the loop
      left by `q` only on a `q` frame, and by the target only on an accepted
      capture. */
  lemma {:induction false} CaptureLoopCollectsAccepted(c: Capture, frames: seq<CaptureFrame>)
    requires CaptureInv(c) && c.phase == Capturing
    ensures var r := CaptureLoop(c, frames);
      var n := r.seen - c.seen;
      && 0 <= n <= |frames|
      && r.samples == c.samples + AcceptedSamples(frames[..n])
      && (forall j :: 0 <= j < n - 1 ==> frames[j].key != QuitKey)
      && (r.phase == Quit ==> n >= 1 && frames[n - 1].key == QuitKey)
      && (r.phase == TargetReached ==> n >= 1 && Accepts(frames[n - 1]))
  {
    CaptureLoopSamples(c, frames);
    CaptureLoopExit(c, frames);
  }

  /** Once the loop has left, further frames change nothing: the capture
      device is released and they are never read (main.py:110, 115-117). */
  lemma {:induction false} CaptureLoopStopsAtBreak(c: Capture, frames: seq<CaptureFrame>, more: seq<CaptureFrame>)
    requires CaptureInv(c)
    requires CaptureLoop(c, frames).phase != Capturing
    ensures CaptureLoop(c, frames + more) == CaptureLoop(c, frames)
    decreases |frames|
  {
    if c.phase != Capturing {
    } else {
      assert frames != [];
      assert (frames + more)[0] == frames[0];
      assert (frames + more)[1..] == frames[1..] + more;
      CaptureLoopStopsAtBreak(CaptureStep(c, frames[0]), frames[1..], more);
    }
  }

  /** How an enrollment ended. */
  datatype Outcome =
    | Registered      // target reached, recognizer updated and written
    | Incomplete      // left with `q`: "Registration incomplete"
    | StillCapturing  // the frames ran out inside the loop

  datatype Enrollment = Enrollment(system: System, userId: nat, capture: Capture, outcome: Outcome)

  /** `[user_id] * len(face_samples)` (main.py:122). */
  function Labels(id: int, n: nat): (labels: seq<int>)
    ensures |labels| == n
    ensures forall i :: 0 <= i < n ==> labels[i] == id
  {
    seq(n, _ => id)
  }

  /** `register_new_user` for the name typed at the prompt, the clock reading
      taken at the insert and the frames the capture loop reads
      (main.py:69-127). */
  function Register(sys: System, name: string, now: Time, frames: seq<CaptureFrame>): (r: Enrollment)
    // The user row is written whatever happens next (main.py:73-77).
    ensures r.system.db.attendance == sys.db.attendance
    ensures |r.system.db.users| == |sys.db.users| + 1
    ensures r.system.db.users[..|sys.db.users|] == sys.db.users
    ensures r.system.db.users[|sys.db.users|] == UserRow(r.userId, name, now)
    // The cache learns the new name at once and nothing else (main.py:80).
    ensures Lookup(r.system.cache, r.userId) == name
    ensures forall k :: k != r.userId ==> Lookup(r.system.cache, k) == Lookup(sys.cache, k)
    ensures Invariant(sys) ==> Invariant(r.system) && r.userId !in UserIds(sys.db)
    // The capture loop never overshoots the target.
    ensures |r.capture.samples| == r.capture.count <= SampleTarget
    ensures r.outcome == Registered <==> r.capture.count >= SampleTarget
    ensures r.outcome == Incomplete <==> r.capture.phase == Quit
    ensures r.outcome == StillCapturing <==> r.capture.phase == Capturing
    // Training receives exactly the target number of normalized samples, all
    // labelled with the new id, and the result is written to the file.
    ensures r.outcome == Registered ==>
      && |r.system.recognizer.batches| == |sys.recognizer.batches| + 1
      && r.system.recognizer.batches[..|sys.recognizer.batches|] == sys.recognizer.batches
      && var b := r.system.recognizer.batches[|sys.recognizer.batches|];
      && b.samples == r.capture.samples
      && |b.samples| == |b.labels| == SampleTarget
      && (forall i :: 0 <= i < |b.labels| ==> b.labels[i] == r.userId)
      && (forall i :: 0 <= i < |b.samples| ==> IsNormalized(b.samples[i]))
      && r.system.file == Saved(r.system.recognizer)
    ensures r.outcome != Registered ==>
      r.system.recognizer == sys.recognizer && r.system.file == sys.file
  {
    var (db, id) := InsertUser(sys.db, name, now);
    var cache := Insert(sys.cache, id, name);
    assert Invariant(sys) ==> Consistent(db, cache) by {
      if Invariant(sys) {
        InsertKeepsConsistent(sys.db, sys.cache, name, now);
      }
    }
    var capture := CaptureLoop(Start, frames);
    if capture.phase == Capturing then
      Enrollment(System(db, cache, sys.recognizer, sys.file), id, capture, StillCapturing)
    else if capture.count >= SampleTarget then
      var recognizer := Recognizer(sys.recognizer.batches + [Batch(capture.samples, Labels(id, |capture.samples|))]);
      Enrollment(System(db, cache, recognizer, Saved(recognizer)), id, capture, Registered)
    else
      Enrollment(System(db, cache, sys.recognizer, sys.file), id, capture, Incomplete)
  }

  /** A trained recognizer only knows ids that have a user row. Enrollment
      keeps that, and the new id becomes known to the recognizer exactly when
      the enrollment reached the target: after a `q` the user row stays but
      the identity is untrained (main.py:73-80, 114-127). */
  lemma {:induction false} RegisterTrainsOnlyOnTarget(sys: System, name: string, now: Time, frames: seq<CaptureFrame>)
    requires Invariant(sys)
    requires TrainedLabels(sys.recognizer) <= UserIds(sys.db)
    ensures var r := Register(sys, name, now, frames);
      && TrainedLabels(r.system.recognizer) <= UserIds(r.system.db)
      && r.userId in UserIds(r.system.db)
      && (r.userId in TrainedLabels(r.system.recognizer) <==> r.outcome == Registered)
  {
    var r := Register(sys, name, now, frames);
    assert r.system.db.users[|sys.db.users|].id == r.userId;
    assert UserIds(r.system.db) == UserIds(sys.db) + {r.userId};
    if r.outcome == Registered {
      var n := |sys.recognizer.batches|;
      var b := r.system.recognizer.batches[n];
      assert r.system.recognizer.batches == sys.recognizer.batches + [b];
      assert (set i | 0 <= i < |b.labels| :: b.labels[i]) == {r.userId} by {
        assert b.labels[0] == r.userId;
      }
      TrainedLabelsAppend(sys.recognizer, b);
    }
  }

  /** An operator who presses `c` on every frame with one face in view
      finishes after exactly the missing number of frames. */
  lemma {:induction false} SteadyCapturesReachTarget(c: Capture, frames: seq<CaptureFrame>)
    requires CaptureInv(c) && c.phase == Capturing
    requires |frames| >= SampleTarget - c.count
    requires forall j :: 0 <= j < |frames| ==> Accepts(frames[j])
    ensures CaptureLoop(c, frames).phase == TargetReached
    ensures CaptureLoop(c, frames).seen == c.seen + (SampleTarget - c.count)
    decreases |frames|
  {
    var c1 := CaptureStep(c, frames[0]);
    if c1.phase == Capturing {
      SteadyCapturesReachTarget(c1, frames[1..]);
    }
  }

  /** Enrolling with twenty steady captures registers the user: one new user
      row with the name, the cache resolves the new id to it, and the
      recognizer is updated once with twenty samples. */
  lemma RegisterWithSteadyCaptures(sys: System, name: string, now: Time, frames: seq<CaptureFrame>)
    requires |frames| >= SampleTarget
    requires forall j :: 0 <= j < |frames| ==> Accepts(frames[j])
    ensures var r := Register(sys, name, now, frames);
      && r.outcome == Registered
      && r.capture.seen == SampleTarget
      && r.system.db.users == sys.db.users + [UserRow(r.userId, name, now)]
      && Lookup(r.system.cache, r.userId) == name
      && |r.system.recognizer.batches| == |sys.recognizer.batches| + 1
  {
    SteadyCapturesReachTarget(Start, frames);
    var r := Register(sys, name, now, frames);
    assert r.system.db.users == r.system.db.users[..|sys.db.users|] + [r.system.db.users[|sys.db.users|]];
  }

  /** Restarting the program after an enrollment (`__init__` on the database
      and `recognizer.yml` it left behind, main.py:9-37) rebuilds the very
      cache the enrollment produced in memory, and after a completed
      enrollment reloads the recognizer it trained (main.py:80, 123-124). */
  lemma {:induction false} RestartAfterRegister(sys: System, name: string, now: Time, frames: seq<CaptureFrame>)
    requires Invariant(sys)
    ensures var r := Register(sys, name, now, frames);
      var restarted := Init(r.system.db, r.system.file);
      && Invariant(restarted)
      && restarted.cache == r.system.cache
      && (r.outcome == Registered ==> restarted.recognizer == r.system.recognizer)
  {
    var r := Register(sys, name, now, frames);
    var restarted := Init(r.system.db, r.system.file);
    ConsistentCacheUnique(r.system.db, restarted.cache, r.system.cache);
  }
}
