/** The LBPH recognizer as the attendance system uses it. Its internals are
    opaque: `update` is recorded as the batch it received, `write` and `read`
    move that record to and from the file `recognizer.yml`. */
module FaceModel {
  import opened Camera

  /** Side length of a normalized sample: `cv2.resize(face, (200, 200))`. */
  const SampleSide: nat := 200

  /** A face region cut from the greyscale frame and resized. */
  datatype Sample = Sample(region: Region, width: nat, height: nat)

  predicate IsNormalized(s: Sample) {
    s.width == SampleSide && s.height == SampleSide
  }

  /** Crop and resize (main.py:102-104): the sample keeps its region and has
      the fixed dimensions every sample must share. */
  function Normalize(r: Region): (s: Sample)
    ensures s.region == r
    ensures IsNormalized(s)
  {
    Sample(r, SampleSide, SampleSide)
  }

  /** The arguments of one `recognizer.update(samples, labels)` call. */
  datatype Batch = Batch(samples: seq<Sample>, labels: seq<int>)

  /** The recognizer's state, as the sequence of updates it has absorbed. */
  datatype Recognizer = Recognizer(batches: seq<Batch>)

  /** The file `recognizer.yml`: absent, or holding a written state. */
  datatype ModelFile = NoFile | Saved(state: Recognizer)

  /** A fresh `LBPHFaceRecognizer_create()` followed by `load_recognizer`
      (main.py:25, 65-67): the saved state when the file exists. */
  function Load(file: ModelFile): (rec: Recognizer)
    ensures file.NoFile? ==> rec.batches == []
    ensures file.Saved? ==> rec == file.state
  {
    match file
    case NoFile => Recognizer([])
    case Saved(state) => state
  }

  /** The recognizer holds training data: `predict` works only then. */
  predicate Trained(rec: Recognizer) {
    rec.batches != []
  }

  /** Every label the recognizer has been trained on. */
  function TrainedLabels(rec: Recognizer): set<int> {
    set b, i | b in rec.batches && 0 <= i < |b.labels| :: b.labels[i]
  }

  /** Absorbing one more batch adds exactly that batch's labels. */
  lemma {:induction false} TrainedLabelsAppend(rec: Recognizer, b: Batch)
    ensures TrainedLabels(Recognizer(rec.batches + [b]))
         == TrainedLabels(rec) + (set i | 0 <= i < |b.labels| :: b.labels[i])
  {
    var after := Recognizer(rec.batches + [b]);
    forall l | l in TrainedLabels(after)
      ensures l in TrainedLabels(rec) + (set i | 0 <= i < |b.labels| :: b.labels[i])
    {
      var b', i :| b' in after.batches && 0 <= i < |b'.labels| && b'.labels[i] == l;
      if b' != b { assert b' in rec.batches; }
    }
    forall l | l in TrainedLabels(rec) ensures l in TrainedLabels(after) {
      var b', i :| b' in rec.batches && 0 <= i < |b'.labels| && b'.labels[i] == l;
      assert b' in after.batches;
    }
    forall i | 0 <= i < |b.labels| ensures b.labels[i] in TrainedLabels(after) {
      assert b in after.batches;
    }
  }
}
