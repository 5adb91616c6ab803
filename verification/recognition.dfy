/** `mark_attendance` (main.py:129-181): annotate every detected face with its
    cached name and a colour chosen by the distance threshold, and on the
    operator's `a` key commit one attendance row when exactly one face is
    recognised closely enough. */
module Recognition {
  import opened Store
  import opened IdentityCache
  import opened Camera
  import opened FaceModel
  import opened AttendanceSystem

  /** The acceptance threshold on the recognizer's distance (main.py:149,
      163). Lower is a closer match, and the comparison is strict. */
  const Threshold: real := 100.0

  predicate Confident(distance: real) {
    distance < Threshold
  }

  /** `recognizer.predict(face)` for one detected face: the label and the
      distance the recognizer reported (it calls it `confidence`). */
  datatype Prediction = Prediction(userId: int, distance: real)

  /** One iteration of the scanning loop: one prediction per detected face,
      the key read after the frame is shown, and the clock at that moment. */
  datatype ScanFrame = ScanFrame(faces: seq<Prediction>, key: Key, now: Time)

  /** The BGR colours of main.py:149. */
  datatype Colour =
    | Green  // (0, 255, 0)
    | Red    // (0, 0, 255)

  /** The label drawn next to one face. */
  datatype Annotation = Annotation(name: string, distance: real, colour: Colour)

  /** The lower the distance, the more confident the verdict: a distance no
      larger than an accepted one is accepted as well. */
  lemma ThresholdMonotone(closer: real, farther: real)
    requires closer <= farther
    ensures Confident(farther) ==> Confident(closer)
    ensures !Confident(closer) ==> !Confident(farther)
  {
  }

  /** The per-face drawing loop (main.py:138-152): one annotation per face,
      named from the cache with the "Unknown" default, green exactly when the
      distance is below the threshold. */
  function Annotate(cache: Cache, faces: seq<Prediction>): (r: seq<Annotation>)
    ensures |r| == |faces|
    ensures forall i :: 0 <= i < |faces| && faces[i].userId in cache ==> r[i].name == cache[faces[i].userId]
    ensures forall i :: 0 <= i < |faces| && faces[i].userId !in cache ==> r[i].name == Unknown
    ensures forall i :: 0 <= i < |faces| ==> (r[i].colour == Green <==> Confident(faces[i].distance))
    ensures forall i :: 0 <= i < |faces| ==> r[i].distance == faces[i].distance
  {
    seq(|faces|, i requires 0 <= i < |faces| =>
      Annotation(Lookup(cache, faces[i].userId), faces[i].distance,
                 if Confident(faces[i].distance) then Green else Red))
  }

  /** The fault that ends the process: the loop has no handler for any. */
  datatype Fault =
    | PredictError                 // `predict` on a recognizer never trained (main.py:143)
    | IntegrityError(userId: int)  // the insert of main.py:167 hits the foreign key
    | KeyError(userId: int)        // `id_name_map[user_id]` at main.py:170

  datatype Status =
    | Scanning
    | Committed(userId: int, name: string)  // "Attendance marked for <name>", then `break`
    | Cancelled                             // `break` on `q` (main.py:177-178)
    | Crashed(fault: Fault)

  /** The loop's observable state: the database it writes, where it stands,
      the messages printed, the annotations drawn per frame read. */
  datatype Scan = Scan(
    db: Db,
    status: Status,
    notices: seq<Notice>,
    shown: seq<seq<Annotation>>,
    seen: nat)

  function StartScan(db: Db): Scan {
    Scan(db, Scanning, [], [], 0)
  }

  /** The drawing loop calls `predict` on every detected face (main.py:143);
      a recognizer that holds no training raises there, before the frame is
      shown or the key is read. */
  predicate PredictFails(trained: bool, f: ScanFrame) {
    !trained && |f.faces| > 0
  }

  /** A frame on which the `a` key commits: exactly one face, recognised
      below the threshold (main.py:157-163). */
  predicate CommitAccepted(f: ScanFrame) {
    f.key == MarkKey && |f.faces| == 1 && Confident(f.faces[0].distance)
  }

  /** A frame that ends the loop. */
  predicate Decisive(trained: bool, f: ScanFrame) {
    PredictFails(trained, f) || f.key == QuitKey || CommitAccepted(f)
  }

  /** One pass of the loop body (main.py:134-178), for a recognizer that is
      `trained` or not. The commit path predicts again on the single face;
      `predict` is deterministic, so that is the prediction already drawn for
      it. */
  function ScanStep(cache: Cache, trained: bool, s: Scan, f: ScanFrame): (r: Scan)
    requires s.status == Scanning
    ensures r.seen == s.seen + 1
    ensures r.db.users == s.db.users
    // An untrained recognizer faults on the first face, drawing nothing.
    ensures PredictFails(trained, f) ==>
      r.status == Crashed(PredictError) && r.db == s.db && r.shown == s.shown && r.notices == s.notices
    ensures !PredictFails(trained, f) ==> r.shown == s.shown + [Annotate(cache, f.faces)]
    // Nothing is written unless the frame commits; the loop ends exactly on
    // a faulting, committing or quitting frame.
    ensures PredictFails(trained, f) || !CommitAccepted(f) ==> r.db == s.db
    ensures r.status == Scanning <==> !Decisive(trained, f)
    ensures r.status == Cancelled <==> !PredictFails(trained, f) && f.key == QuitKey
    // A committing frame appends one row for the predicted id unless the
    // foreign key rejects it.
    ensures !PredictFails(trained, f) && CommitAccepted(f) ==>
      if f.faces[0].userId in UserIds(s.db) then
        && |r.db.attendance| == |s.db.attendance| + 1
        && r.db.attendance[..|s.db.attendance|] == s.db.attendance
        && r.db.attendance[|s.db.attendance|].userId == f.faces[0].userId
        && r.db.attendance[|s.db.attendance|].checkIn == f.now
        && (f.faces[0].userId in cache ==> r.status == Committed(f.faces[0].userId, cache[f.faces[0].userId]))
        && (f.faces[0].userId !in cache ==> r.status == Crashed(KeyError(f.faces[0].userId)))
      else
        r.db == s.db && r.status == Crashed(IntegrityError(f.faces[0].userId))
    // A refused `a` is reported and the loop goes on.
    ensures !PredictFails(trained, f) && f.key == MarkKey && |f.faces| != 1 ==>
      r.notices == s.notices + [NeedOneFace]
    ensures !PredictFails(trained, f) && f.key == MarkKey && |f.faces| == 1 && !Confident(f.faces[0].distance) ==>
      r.notices == s.notices + [LowConfidence]
    ensures f.key != MarkKey ==> r.notices == s.notices
    ensures Valid(s.db) ==> Valid(r.db)
  {
    if PredictFails(trained, f) then
      s.(seen := s.seen + 1, status := Crashed(PredictError))
    else
      var s := s.(shown := s.shown + [Annotate(cache, f.faces)], seen := s.seen + 1);
      if f.key == MarkKey then
        if |f.faces| == 1 then
          var p := f.faces[0];
          if Confident(p.distance) then
            match InsertAttendance(s.db, p.userId, f.now)
            case DanglingUser(id) => s.(status := Crashed(IntegrityError(id)))
            case Inserted(db, _) =>
              if p.userId in cache then s.(db := db, status := Committed(p.userId, cache[p.userId]))
              else s.(db := db, status := Crashed(KeyError(p.userId)))
          else
            s.(notices := s.notices + [LowConfidence])
        else
          s.(notices := s.notices + [NeedOneFace])
      else if f.key == QuitKey then
        s.(status := Cancelled)
      else
        s
  }

  /** The `while True` loop over the frames it reads. Frames after a `break`
      or a fault are never read; running out of frames leaves it scanning.
      Whatever happens, one invocation appends at most one attendance row,
      and an untrained recognizer never commits. */
  function ScanLoop(cache: Cache, trained: bool, s: Scan, frames: seq<ScanFrame>): (r: Scan)
    ensures s.seen <= r.seen <= s.seen + |frames|
    ensures s.status != Scanning ==> r == s
    ensures r.status == Scanning ==> r.seen == s.seen + |frames| && r.db == s.db
    ensures r.db.users == s.db.users
    ensures |s.db.attendance| <= |r.db.attendance|
    ensures r.db.attendance[..|s.db.attendance|] == s.db.attendance
    ensures s.status == Scanning ==> |r.db.attendance| <= |s.db.attendance| + 1
    ensures !trained ==> r.db == s.db
    ensures !trained && !s.status.Committed? ==> !r.status.Committed?
    ensures Valid(s.db) ==> Valid(r.db)
    decreases |frames|
  {
    if s.status != Scanning || frames == [] then s
    else ScanLoop(cache, trained, ScanStep(cache, trained, s, frames[0]), frames[1..])
  }

  /** `mark_attendance` on the current system and the frames it reads. */
  function MarkAttendance(sys: System, frames: seq<ScanFrame>): (r: Scan)
    ensures r.db.users == sys.db.users
    ensures |sys.db.attendance| <= |r.db.attendance| <= |sys.db.attendance| + 1
    ensures r.db.attendance[..|sys.db.attendance|] == sys.db.attendance
    ensures r.status == Scanning ==> r.db == sys.db
    ensures !Trained(sys.recognizer) ==> r.db == sys.db && !r.status.Committed?
    ensures Invariant(sys) ==> Invariant(sys.(db := r.db))
  {
    ScanLoop(sys.cache, Trained(sys.recognizer), StartScan(sys.db), frames)
  }

  /** Reference definition: the position of the first frame that ends the
      loop, or `|frames|` when none does. */
  function FirstDecisive(trained: bool, frames: seq<ScanFrame>): nat {
    if frames == [] then 0
    else if Decisive(trained, frames[0]) then 0
    else 1 + FirstDecisive(trained, frames[1..])
  }

  /** The loop's result is decided by its first decisive frame alone: before
      it nothing is written; a face seen by an untrained recognizer there
      faults with nothing written; a `q` there cancels with nothing written;
      an accepted `a` there writes the one row for that frame's prediction at
      that frame's time, and the loop stops right after it. */
  lemma {:induction false} ScanLoopDecidedByFirstDecisive(cache: Cache, trained: bool, s: Scan, frames: seq<ScanFrame>)
    requires s.status == Scanning
    ensures var r := ScanLoop(cache, trained, s, frames);
      var k := FirstDecisive(trained, frames);
      && k <= |frames|
      && (forall j :: 0 <= j < k ==> !Decisive(trained, frames[j]))
      && (k < |frames| ==> Decisive(trained, frames[k]))
      && (k == |frames| ==> r.status == Scanning && r.db == s.db && r.seen == s.seen + |frames|)
      && (k < |frames| ==> r.seen == s.seen + k + 1 && r.status != Scanning)
      && (k < |frames| && PredictFails(trained, frames[k]) ==>
            r.status == Crashed(PredictError) && r.db == s.db)
      && (k < |frames| && !PredictFails(trained, frames[k]) && frames[k].key == QuitKey ==>
            r.status == Cancelled && r.db == s.db)
      && (k < |frames| && !PredictFails(trained, frames[k]) && CommitAccepted(frames[k]) ==>
            var p := frames[k].faces[0];
            if p.userId in UserIds(s.db) then
              && |r.db.attendance| == |s.db.attendance| + 1
              && r.db.attendance[|s.db.attendance|].userId == p.userId
              && r.db.attendance[|s.db.attendance|].checkIn == frames[k].now
              && r.status == (if p.userId in cache then Committed(p.userId, cache[p.userId])
                              else Crashed(KeyError(p.userId)))
            else
              r.db == s.db && r.status == Crashed(IntegrityError(p.userId)))
    decreases |frames|
  {
    if frames != [] {
      var s1 := ScanStep(cache, trained, s, frames[0]);
      if !Decisive(trained, frames[0]) {
        ScanLoopDecidedByFirstDecisive(cache, trained, s1, frames[1..]);
        var k := FirstDecisive(trained, frames);
        if k < |frames| {
          assert frames[k] == frames[1..][k - 1];
        }
        assert forall j :: 1 <= j < k ==> frames[j] == frames[1..][j - 1];
      } else {
        assert ScanLoop(cache, trained, s, frames) == s1;
      }
    }
  }

  /** With the cache mirroring the `users` table, the `KeyError` of
      main.py:170 cannot happen: a committed id always has a name. Besides
      the untrained recognizer, the only fault left is a confident
      prediction whose id has no user row, and such an id is one the cache
      shows as "Unknown". */
  lemma {:induction false} ConsistentCacheNeverRaisesKeyError(sys: System, frames: seq<ScanFrame>)
    requires Invariant(sys)
    ensures var r := MarkAttendance(sys, frames);
      && !(r.status.Crashed? && r.status.fault.KeyError?)
      && (r.status.Crashed? && !r.status.fault.PredictError? ==>
            Lookup(sys.cache, r.status.fault.userId) == Unknown)
      && (r.status.Committed? ==> Lookup(sys.cache, r.status.userId) == r.status.name)
  {
    var trained := Trained(sys.recognizer);
    ScanLoopDecidedByFirstDecisive(sys.cache, trained, StartScan(sys.db), frames);
    var k := FirstDecisive(trained, frames);
    if k < |frames| && !PredictFails(trained, frames[k]) && CommitAccepted(frames[k]) {
      var p := frames[k].faces[0];
      assert p.userId in sys.cache <==> p.userId in UserIds(sys.db);
    }
  }

  /** Once the loop has left, further frames change nothing (main.py:171,
      177-181). */
  lemma {:induction false} ScanLoopStopsAtBreak(cache: Cache, trained: bool, s: Scan, frames: seq<ScanFrame>, more: seq<ScanFrame>)
    requires ScanLoop(cache, trained, s, frames).status != Scanning
    ensures ScanLoop(cache, trained, s, frames + more) == ScanLoop(cache, trained, s, frames)
    decreases |frames|
  {
    if s.status == Scanning {
      assert frames != [];
      assert (frames + more)[0] == frames[0];
      assert (frames + more)[1..] == frames[1..] + more;
      ScanLoopStopsAtBreak(cache, trained, ScanStep(cache, trained, s, frames[0]), frames[1..], more);
    }
  }

  /** On an `a` frame with one face, the colour drawn for that face and the
      commit decision agree once the recognizer is trained: the loop leaves
      scanning exactly when the face is drawn green (main.py:149 and 163 use
      the same threshold). Untrained, `predict` faults before either. */
  lemma {:induction false} ColourMatchesCommit(cache: Cache, trained: bool, s: Scan, f: ScanFrame)
    requires s.status == Scanning
    requires f.key == MarkKey && |f.faces| == 1
    ensures trained ==>
      (Annotate(cache, f.faces)[0].colour == Green <==> ScanStep(cache, trained, s, f).status != Scanning)
    ensures !trained ==> ScanStep(cache, trained, s, f).status == Crashed(PredictError)
  {
    var r := ScanStep(cache, trained, s, f);
    assert trained ==> (Decisive(trained, f) <==> Confident(f.faces[0].distance));
    assert r.status != Scanning <==> Decisive(trained, f);
  }
}
