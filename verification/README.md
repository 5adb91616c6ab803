# Face-recognition attendance system: a Dafny model of its decision logic

The attendance system enrolls people by collecting face samples from a
camera. It marks attendance when a face is recognised closely enough. All of
it lives in one Python class, `AttendanceSystem` in `main.py`. This project
models the part of that class that makes decisions. The camera, the cascade
detector, the LBPH recognizer and the MySQL database are replaced by data:

- each camera frame becomes a value holding the detected faces, the key read
  by `cv2.waitKey`, and (while scanning) the recognizer's `(id, distance)`
  prediction for every face and the clock;
- the database becomes two append-only tables with explicit auto-increment
  counters;
- the recognizer becomes the record of the `update` batches it absorbed;
- the `id_name_map` cache becomes a `map<int, string>`.

Both interactive loops are pure step functions folded over a finite sequence
of frames. Running out of frames means the loop is still waiting for input.

Modules:

- `Store` (`store.dfy`): the `users` and `attendance` tables. It covers the
  primary-key invariant, `INSERT INTO users` with `lastrowid`, and
  `INSERT INTO attendance` with its declared foreign key.
- `IdentityCache` (`identity_cache.dfy`): `load_id_name_map`, the insert
  done on enrollment, and the lookup with the `"Unknown"` default. It also
  defines when the cache is consistent with the `users` table.
- `Camera` (`camera.dfy`): the key codes `c`, `q` and `a`, detected regions,
  and the operator messages.
- `FaceModel` (`face_model.dfy`): normalized 200×200 samples, update
  batches, and the `recognizer.yml` file.
- `AttendanceSystem` (`attendance_system.dfy`): the object's state,
  `__init__`, and the system invariant.
- `Enrollment` (`enrollment.dfy`): the capture state machine of
  `register_new_user` and the training decision after it.
- `Recognition` (`recognition.dfy`): the scanning state machine of
  `mark_attendance`, the per-face annotation, and the single-shot commit.

Four behaviours of the code are worth stating explicitly:

- A confident commit on an id that has no user row is not handled. The
  `INSERT INTO attendance` at main.py:165-168 violates the foreign key
  declared at main.py:55, and nothing catches the exception. The model ends
  the loop in `Crashed(IntegrityError)`. After a successful insert, the
  success message indexes `id_name_map[user_id]` without a default
  (main.py:170). For an id that has a user row but is missing from the
  cache, this raises `KeyError`, and the model ends in `Crashed(KeyError)`.
  `Recognition.ConsistentCacheNeverRaisesKeyError` shows that this cannot
  happen while the cache mirrors the table.
- The commit path does not detect again. It crops and resizes the region
  left in `x, y, w, h` by the drawing loop (main.py:159-160), which with one
  face is that face, and predicts on it again (main.py:161). `predict` is
  deterministic, so the model reuses the prediction already drawn for that
  face.
- The enrollment name is never checked for being non-empty. The model
  accepts any name.
- The scanning loop calls `predict` on every detected face (main.py:143).
  LBPH raises when it holds no training, and that happens on a first run
  without `recognizer.yml` or after only aborted enrollments. Nothing catches
  the exception. The model ends the loop in `Crashed(PredictError)` on the
  first frame showing a face to an untrained recognizer. Frames with no face
  never reach `predict`.

## Model

| member | source | states |
|---|---|---|
| Store.Empty | main.py:39-58 | Freshly created tables are empty and satisfy the key invariant. |
| Store.InsertUser | main.py:72-77 | The user row is appended with a key that was not in the table before. The key set grows by exactly that key. Attendance is untouched. The table invariant is preserved. |
| Store.InsertAttendance | main.py:165-168 | The insert is rejected exactly when the user id has no row in `users`, and otherwise appends exactly one row with that user id and time while leaving `users` unchanged and the tables valid. |
| IdentityCache.Hydrate | main.py:62-63 | Folding the rows into the map yields the old keys plus every row id. Keys no row mentions keep their values. With distinct ids, every row's id maps to that row's name. |
| IdentityCache.LoadIdNameMap | main.py:60-63 | The map built at start-up has exactly the user ids as keys and is consistent with a valid table. |
| IdentityCache.Insert | main.py:80 | After the insert, the new id resolves to the new name. Every other id resolves as before. The key set grows by that id only. |
| IdentityCache.ConsistentCacheUnique | main.py:60-63 | Two caches that both mirror the same `users` table are the same map. |
| IdentityCache.InsertKeepsConsistent | main.py:73-80 | Inserting the user row and then the map entry keeps the cache consistent with the table. |
| FaceModel.Normalize | main.py:102-104 | A sample keeps its detected region and has the fixed 200×200 size every sample shares. |
| Enrollment.RestartAfterRegister | main.py:9-37 | Restarting on the database and model file an enrollment left behind rebuilds exactly the cache that enrollment produced in memory, keeps the system invariant, and after a completed enrollment reloads the recognizer it trained. |
| FaceModel.TrainedLabelsAppend | main.py:123 | One more `update` batch adds exactly that batch's labels to the labels the recognizer knows. |
| FaceModel.Load | main.py:65-67 | The recognizer starts empty when `recognizer.yml` is absent. Otherwise it starts from the saved state. |
| AttendanceSystem.Init | main.py:9-37 | Start-up reads the model file if present. It builds a cache in which every name that resolves belongs to a user id. On a valid database it establishes the system invariant. |
| Enrollment.CaptureStep | main.py:99-115 | A sample is appended, and the count raised by one, exactly on `c` with one face. Any other key or face count leaves buffer and count unchanged. `c` with a wrong face count adds the warning. The loop quits exactly on `q` and reaches the target exactly on the capture that brings the count to 20. The buffer/count/bound invariant is preserved. |
| Enrollment.CaptureLoop | main.py:89-115 | The loop keeps buffer length equal to count, never exceeds 20, and reports the target phase exactly at 20. A loop that has not left has read every frame. |
| Enrollment.CaptureLoopCollectsAccepted | main.py:100-115 | The collected buffer equals, in order, the accepted captures among the frames read. No frame before the last one read was a `q`. A quit ends on a `q` frame, and reaching the target ends on an accepted capture. |
| Enrollment.CaptureLoopSamples | main.py:100-110 | The collected buffer equals, in order, the samples of the accepted captures among the frames the loop read. |
| Enrollment.CaptureLoopExit | main.py:109-115 | No frame before the last one read was a `q`; a quit ends on a `q` frame and reaching the target ends on an accepted capture. |
| Enrollment.CaptureLoopStopsAtBreak | main.py:109-117 | Once the loop has broken out, later frames change nothing. |
| Enrollment.Labels | main.py:122 | The label list has one entry per sample, each equal to the new user id. |
| Enrollment.Register | main.py:69-127 | The user row and the cache entry are written whatever the outcome. Training happens exactly when the count reached 20. It appends one batch of exactly 20 normalized samples, all labelled with the new id, and writes it to the file. A `q` abort leaves the recognizer and file unchanged. The system invariant is preserved. |
| Enrollment.RegisterTrainsOnlyOnTarget | main.py:114-127 | If trained labels were all user ids, they still are afterwards. The new id is known to the recognizer if and only if the enrollment reached the target. After an abort the user row remains but is untrained. |
| Enrollment.SteadyCapturesReachTarget | main.py:100-110 | Accepted captures on every frame end the loop after exactly the missing number of frames, in the target phase. |
| Enrollment.RegisterWithSteadyCaptures | main.py:69-125 | Twenty steady captures register the user. One user row is added, the cache maps the new id to the name, and the recognizer gets one update. |
| Recognition.ThresholdMonotone | main.py:163 | A closer distance is never judged less confident than a farther one under the strict `< 100` rule. |
| Recognition.ColourMatchesCommit | main.py:141-163 | On an `a` frame with one face and a trained recognizer, the face is drawn green exactly when that frame ends the loop through the commit path. With an untrained recognizer, `predict` faults first. |
| Recognition.Annotate | main.py:138-152 | Each face gets one annotation. The name is the cached one if the id is present, otherwise "Unknown". The colour is green exactly when the distance is confident, that is, below 100. |
| Recognition.ScanStep | main.py:137-178 | A face shown to an untrained recognizer faults in `predict` and nothing is drawn or written. Otherwise the store changes only on `a` with one face below the threshold. That appends one row for the predicted id at that frame's time, unless the foreign key rejects it. The loop ends exactly on such a frame, on a predict fault, or on `q`. A refused `a` reports "need one face" or "low confidence" and scanning continues. `q` writes nothing. |
| Recognition.ScanLoop | main.py:133-178 | One invocation appends at most one attendance row and never touches `users`. A loop still scanning has written nothing. With an untrained recognizer it writes nothing and never commits. |
| Recognition.MarkAttendance | main.py:129-181 | Marking attendance appends at most one row, keeps earlier rows and users, and preserves the system invariant. Before any enrollment has trained the recognizer, it writes nothing and never reports a commit. |
| Recognition.ScanLoopDecidedByFirstDecisive | main.py:137-178 | The first frame that shows a face to an untrained recognizer, is a `q`, or is an accepted `a` decides the result, and the loop stops right after it. Before it nothing is written. A predict fault or a `q` ends the loop without writing. An accepted `a` writes exactly the row for that frame's prediction and time, or faults on an unknown id. |
| Recognition.ConsistentCacheNeverRaisesKeyError | main.py:146-170 | With the cache consistent with the table, the success message's unguarded lookup never raises. Apart from the untrained-recognizer fault, a fault can only come from an id the cache shows as "Unknown". A committed name is that id's cached name. |
| Recognition.ScanLoopStopsAtBreak | main.py:171-178 | Once the loop has committed, cancelled or faulted, later frames change nothing. |

## Left out

- OpenCV calls are not modelled: frame capture, greyscale conversion, Haar-cascade detection, cropping, resizing, drawing and display. They are foreign library calls, so frames arrive as detected regions or predictions plus a key.
- The LBPH recognizer's internals are not modelled. `predict` results are given data. The only `predict` failure modelled is the one on a recognizer that has never been trained. `update` is recorded as the batch it received. `read` and `write` move that record to and from the file.
- MySQL is not modelled beyond the two tables: no connection, SQL text, commits or error recovery. `setup_database` is a no-op on existing tables and is represented only by `Store.Empty`.
- `view_attendance` is left out. It is a read-only joined query whose ordering is done by the database.
- The `main()` menu, `input()`, `print()` and the `dataset` directory check are console and filesystem plumbing. They are left out.
- `cap.release()` and `destroyAllWindows()` are device handling and are left out. On the faulting paths the source never reaches them.
- Floating-point behaviour and the `:.1f` formatting of the distance are left out. The distance is a Dafny `real` compared with 100.
- InsertAttendance: assumes the database enforces the foreign key declared at main.py:55. Whether MySQL does depends on the storage engine and on `foreign_key_checks`, and main.py:50-56 sets neither. Without enforcement, a dangling id would be inserted and then raise `KeyError` at main.py:170. The model does not cover that path.
- InsertUser: does not model the `VARCHAR(255)` limit of `users.name` (main.py:44). Names are unbounded strings and are stored as given. For a longer name, MySQL either raises a data error in strict mode, before the cache insert at main.py:80, or stores a truncated name that differs from the cached one. In the second case a restart would load the truncated name, so `Enrollment.RestartAfterRegister` holds for the source only for names of at most 255 characters.
- Ids are unbounded integers. The 32-bit range of the `INT` columns and of the recognizer's labels is not modelled.
- Timestamps from `datetime.now()` are integer parameters supplied with each call or frame.
