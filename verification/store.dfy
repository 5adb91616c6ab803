/** The attendance database (main.py:39-58) as two append-only tables.

    `users(id, name, registration_date)` and `attendance(id, user_id, check_in)`
    both have an AUTO_INCREMENT primary key, modelled here by an explicit
    next-key counter per table. `attendance.user_id` is declared as a foreign
    key into `users.id`, so an insert with a dangling user id is rejected. */
module Store {

  /** A reading of `datetime.now()`; the clock is a parameter of the model. */
  type Time = int

  datatype UserRow = UserRow(id: nat, name: string, registered: Time)

  datatype AttendanceRow = AttendanceRow(id: nat, userId: int, checkIn: Time)

  /** Both tables plus their AUTO_INCREMENT counters. */
  datatype Db = Db(
    users: seq<UserRow>,
    attendance: seq<AttendanceRow>,
    nextUser: nat,
    nextAttendance: nat)

  /** The ids carried by a sequence of user rows. */
  function Ids(rows: seq<UserRow>): set<int> {
    set i | 0 <= i < |rows| :: rows[i].id
  }

  /** The keys of the `users` table. */
  function UserIds(db: Db): set<int> {
    Ids(db.users)
  }

  /** Primary keys are positive, strictly increasing in insertion order and
      below the counter; every attendance row references an existing user. */
  predicate Valid(db: Db) {
    && 1 <= db.nextUser
    && 1 <= db.nextAttendance
    && (forall i :: 0 <= i < |db.users| ==> 1 <= db.users[i].id < db.nextUser)
    && (forall i, j :: 0 <= i < j < |db.users| ==> db.users[i].id < db.users[j].id)
    && (forall i :: 0 <= i < |db.attendance| ==> 1 <= db.attendance[i].id < db.nextAttendance)
    && (forall i, j :: 0 <= i < j < |db.attendance| ==> db.attendance[i].id < db.attendance[j].id)
    && (forall i :: 0 <= i < |db.attendance| ==> db.attendance[i].userId in UserIds(db))
  }

  /** A fresh database: both tables empty, both counters at their first key. */
  function Empty(): (db: Db)
    ensures Valid(db)
    ensures UserIds(db) == {}
  {
    Db([], [], 1, 1)
  }

  /** `INSERT INTO users (name, registration_date)` followed by `lastrowid`
      (main.py:73-77): the result pairs the new table with the generated key. */
  function InsertUser(db: Db, name: string, now: Time): (r: (Db, nat))
    ensures |r.0.users| == |db.users| + 1
    ensures r.0.users[..|db.users|] == db.users
    ensures r.0.users[|db.users|] == UserRow(r.1, name, now)
    ensures r.0.attendance == db.attendance
    ensures UserIds(r.0) == UserIds(db) + {r.1}
    ensures Valid(db) ==> Valid(r.0) && r.1 !in UserIds(db)
  {
    var id := db.nextUser;
    var db' := db.(users := db.users + [UserRow(id, name, now)], nextUser := id + 1);
    assert db'.users[|db.users|] == UserRow(id, name, now);
    assert UserIds(db') == UserIds(db) + {id} by {
      forall k | k in UserIds(db') ensures k in UserIds(db) + {id} {
        var i :| 0 <= i < |db'.users| && db'.users[i].id == k;
        if i < |db.users| { assert db.users[i].id == k; }
      }
      forall k | k in UserIds(db) ensures k in UserIds(db') {
        var i :| 0 <= i < |db.users| && db.users[i].id == k;
        assert db'.users[i].id == k;
      }
      assert db'.users[|db.users|].id == id;
    }
    (db', id)
  }

  /** The outcome of `INSERT INTO attendance (user_id, check_in)`. */
  datatype AttendanceInsert =
    | Inserted(db: Db, rowId: nat)
    | DanglingUser(userId: int)

  /** `INSERT INTO attendance` (main.py:165-168). The foreign key of
      main.py:55 rejects a `user_id` that has no row in `users`. */
  function InsertAttendance(db: Db, userId: int, now: Time): (r: AttendanceInsert)
    ensures r.DanglingUser? <==> userId !in UserIds(db)
    ensures r.DanglingUser? ==> r.userId == userId
    ensures r.Inserted? ==>
      && r.db.users == db.users
      && r.db.attendance == db.attendance + [AttendanceRow(r.rowId, userId, now)]
    ensures r.Inserted? && Valid(db) ==> Valid(r.db)
  {
    if userId in UserIds(db) then
      var id := db.nextAttendance;
      Inserted(db.(attendance := db.attendance + [AttendanceRow(id, userId, now)],
                   nextAttendance := id + 1), id)
    else
      DanglingUser(userId)
  }
}
