/** The state held by one `AttendanceSystem` object (main.py:8-37): the
    database, the `id_name_map` cache, the recognizer and its file. */
module AttendanceSystem {
  import opened Store
  import opened IdentityCache
  import opened FaceModel

  datatype System = System(db: Db, cache: Cache, recognizer: Recognizer, file: ModelFile)

  /** What every operation relies on and keeps: well-formed tables and a
      cache that mirrors the `users` table. */
  predicate Invariant(sys: System) {
    Valid(sys.db) && Consistent(sys.db, sys.cache)
  }

  /** `__init__` (main.py:9-37) on an existing database and model file: the
      recognizer is read from the file if there is one, and the cache is
      hydrated from every user row. */
  function Init(db: Db, file: ModelFile): (sys: System)
    ensures sys.db == db && sys.file == file
    ensures file.NoFile? ==> sys.recognizer.batches == []
    ensures file.Saved? ==> sys.recognizer == file.state
    ensures forall id :: Lookup(sys.cache, id) != Unknown ==> id in UserIds(db)
    ensures Valid(db) ==> Invariant(sys)
  {
    System(db, LoadIdNameMap(db), Load(file), file)
  }
}
