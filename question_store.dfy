/**
 * The local question store (db/sqlite.ts). The SQLite file is modelled by its
 * two tables: `questions`, a map from primary key to row, and `_meta`, a map
 * from key to value. A missing table reads as an empty one, which is what
 * `CREATE TABLE IF NOT EXISTS` then produces. The open handle is a
 * `Connection` object cached in `dbRef`; the seed list is a constructor
 * parameter.
 */
module QuestionStore {

  const DbName := "trivia.db"
  const SchemaVersionKey := "schema_version"
  const SchemaVersion := "1"
  const DefaultCount := 10
  const MaxCount := 100

  /** One row of the `questions` table. */
  datatype Row = Row(
    id: string,
    topic: string,
    difficulty: string,
    prompt: string,
    a1: string, a2: string, a3: string, a4: string,
    correctIndex: int)

  /** The table's `CHECK(correct_index BETWEEN 0 AND 3)`. */
  predicate CheckConstraint(r: Row)
  {
    0 <= r.correctIndex <= 3
  }

  /** What the table's constraints guarantee: rows sit under their own id and pass the CHECK. */
  predicate TableValid(t: map<string, Row>)
  {
    forall k :: k in t ==> t[k].id == k && CheckConstraint(t[k])
  }

  /** `_meta` records the current schema version. */
  predicate SchemaReady(meta: map<string, string>)
  {
    SchemaVersionKey in meta && meta[SchemaVersionKey] == SchemaVersion
  }

  /**
   * `INSERT OR IGNORE` of one row: skipped when its id is already taken or
   * it fails the CHECK constraint (SQLite's IGNORE covers both).
   */
  function InsertOrIgnore(t: map<string, Row>, r: Row): map<string, Row>
  {
    if r.id in t || !CheckConstraint(r) then t else t[r.id := r]
  }

  /** The table after inserting `rows` in order with `INSERT OR IGNORE`. */
  function SeedInto(t: map<string, Row>, rows: seq<Row>): map<string, Row>
    decreases |rows|
  {
    if rows == [] then t
    else InsertOrIgnore(SeedInto(t, rows[..|rows| - 1]), rows[|rows| - 1])
  }

  /** `ensureSeed` on a table: seeds only an empty table, and only from a non-empty list. */
  function SeedStep(t: map<string, Row>, seed: seq<Row>): map<string, Row>
  {
    if |t| > 0 || seed == [] then t else SeedInto(t, seed)
  }

  /** A seed row that the insert accepts unless its id is already taken. */
  predicate Admissible(rows: seq<Row>, i: int, k: string)
  {
    0 <= i < |rows| && rows[i].id == k && CheckConstraint(rows[i])
  }

  /** Seeding never removes or overwrites a row that was already there. */
  lemma {:induction false} SeedKeepsExisting(t: map<string, Row>, rows: seq<Row>, k: string)
    requires k in t
    ensures k in SeedInto(t, rows) && SeedInto(t, rows)[k] == t[k]
    decreases |rows|
  {
    if rows != [] {
      SeedKeepsExisting(t, rows[..|rows| - 1], k);
    }
  }

  /** After seeding, an id is present exactly when it was before or some seed row with it passes the CHECK. */
  lemma {:induction false} SeedKeys(t: map<string, Row>, rows: seq<Row>, k: string)
    ensures k in SeedInto(t, rows) <==> k in t || exists i :: Admissible(rows, i, k)
    decreases |rows|
  {
    if rows != [] {
      var init := rows[..|rows| - 1];
      var last := |rows| - 1;
      SeedKeys(t, init, k);
      assert k in SeedInto(t, rows) <==> k in SeedInto(t, init) || Admissible(rows, last, k);
      if exists i :: Admissible(init, i, k) {
        var i :| Admissible(init, i, k);
        assert Admissible(rows, i, k);
      }
      if exists i :: Admissible(rows, i, k) {
        var i :| Admissible(rows, i, k);
        if i < last {
          assert Admissible(init, i, k);
        }
      }
    }
  }

  /** A new id gets the first seed row with that id that passes the CHECK; later duplicates are ignored. */
  lemma {:induction false} SeedFirstWins(t: map<string, Row>, rows: seq<Row>, k: string, i: int)
    requires k !in t && Admissible(rows, i, k)
    requires forall j :: 0 <= j < i ==> !Admissible(rows, j, k)
    ensures k in SeedInto(t, rows) && SeedInto(t, rows)[k] == rows[i]
    decreases |rows|
  {
    var init := rows[..|rows| - 1];
    var before := SeedInto(t, init);
    if i < |rows| - 1 {
      assert Admissible(init, i, k);
      forall j | 0 <= j < i ensures !Admissible(init, j, k) {
        assert !Admissible(rows, j, k);
      }
      SeedFirstWins(t, init, k, i);
    } else {
      SeedKeys(t, init, k);
      if k in before {
        var j :| Admissible(init, j, k);
        assert Admissible(rows, j, k);
      }
    }
  }

  /** Seeding preserves the table's constraints. */
  lemma {:induction false} SeedValid(t: map<string, Row>, rows: seq<Row>)
    requires TableValid(t)
    ensures TableValid(SeedInto(t, rows))
    decreases |rows|
  {
    if rows != [] {
      SeedValid(t, rows[..|rows| - 1]);
    }
  }

  /** Re-running the inserts on a table that already has every accepted id changes nothing. */
  lemma {:induction false} SeedNoop(t: map<string, Row>, rows: seq<Row>)
    requires forall i :: 0 <= i < |rows| && CheckConstraint(rows[i]) ==> rows[i].id in t
    ensures SeedInto(t, rows) == t
    decreases |rows|
  {
    if rows != [] {
      SeedNoop(t, rows[..|rows| - 1]);
    }
  }

  /** Inserting the same rows twice gives the same table as inserting them once. */
  lemma SeedIdempotent(t: map<string, Row>, rows: seq<Row>)
    ensures SeedInto(SeedInto(t, rows), rows) == SeedInto(t, rows)
  {
    var once := SeedInto(t, rows);
    forall i | 0 <= i < |rows| && CheckConstraint(rows[i]) ensures rows[i].id in once {
      SeedKeys(t, rows, rows[i].id);
      assert Admissible(rows, i, rows[i].id);
    }
    SeedNoop(once, rows);
  }

  /** Running `ensureSeed` twice gives the same table as running it once. */
  lemma SeedStepIdempotent(t: map<string, Row>, seed: seq<Row>)
    ensures SeedStep(SeedStep(t, seed), seed) == SeedStep(t, seed)
  {
    if !(|t| > 0 || seed == []) {
      SeedIdempotent(t, seed);
    }
  }

  function Min(a: int, b: int): int { if a <= b then a else b }

  function Max(a: int, b: int): int { if a >= b then a else b }

  /**
   * `Math.max(1, Math.min(100, Math.floor(Number(count) || 10)))` on an
   * integer count: 0 is falsy and defaults to 10, then the value is clamped
   * into 1..100.
   */
  function EffectiveCount(count: int): (n: int)
    ensures 1 <= n <= MaxCount
    ensures count == 0 ==> n == DefaultCount
    ensures count < 0 ==> n == 1
    ensures count > MaxCount ==> n == MaxCount
    ensures 1 <= count <= MaxCount ==> n == count
  {
    Max(1, Min(MaxCount, if count == 0 then DefaultCount else count))
  }

  /** The ids of stored rows matching `WHERE topic = ? AND difficulty = ?`. */
  function MatchingIds(t: map<string, Row>, topic: string, difficulty: string): set<string>
  {
    set k | k in t && t[k].topic == topic && t[k].difficulty == difficulty
  }

  /**
   * What the `SELECT … ORDER BY RANDOM() LIMIT n` may return: stored rows with
   * exactly the given topic and difficulty, no id twice, as many as the limit
   * and the matches allow, in any order.
   */
  ghost predicate IsSelection(out: seq<Row>, t: map<string, Row>, topic: string, difficulty: string, limit: int)
  {
    && |out| == Min(limit, |MatchingIds(t, topic, difficulty)|)
    && (forall i :: 0 <= i < |out| ==>
          out[i].id in t && t[out[i].id] == out[i]
          && out[i].topic == topic && out[i].difficulty == difficulty)
    && (forall i, j :: 0 <= i < j < |out| ==> out[i].id != out[j].id)
  }

  /** Every row of a selection from a constrained table passes the CHECK constraint. */
  lemma SelectionChecked(out: seq<Row>, t: map<string, Row>, topic: string, difficulty: string, limit: int, i: int)
    requires TableValid(t) && IsSelection(out, t, topic, difficulty, limit) && 0 <= i < |out|
    ensures 0 <= out[i].correctIndex <= 3
  {
  }

  /**
   * The query and the loop that copies its result rows into `out`; the random
   * order is an arbitrary choice among the matching rows not yet taken.
   */
  method SelectMatching(t: map<string, Row>, topic: string, difficulty: string, limit: nat)
    returns (out: seq<Row>)
    requires TableValid(t)
    ensures IsSelection(out, t, topic, difficulty, limit)
  {
    var matching := MatchingIds(t, topic, difficulty);
    var remaining := matching;
    out := [];
    while |out| < limit && remaining != {}
      invariant remaining <= matching
      invariant |out| + |remaining| == |matching|
      invariant |out| <= limit
      invariant forall i :: 0 <= i < |out| ==>
        out[i].id in matching && out[i].id !in remaining && t[out[i].id] == out[i]
      invariant forall i, j :: 0 <= i < j < |out| ==> out[i].id != out[j].id
      decreases remaining
    {
      var id :| id in remaining;
      out := out + [t[id]];
      remaining := remaining - {id};
    }
  }

  /** An open handle to the database file. */
  class Connection {
    const name: string

    constructor ()
      ensures name == DbName
    {
      name := DbName;
    }
  }

  class Store {
    /** The cached handle, `null` until the first `getDB`. */
    var dbRef: Connection?
    /** The `questions` table, keyed by id. */
    var questions: map<string, Row>
    /** The `_meta` table. */
    var meta: map<string, string>
    /** The seed list the app ships with. */
    const seed: seq<Row>

    ghost predicate Valid()
      reads this
    {
      TableValid(questions) && (dbRef != null ==> SchemaReady(meta))
    }

    /** A store over a database file holding the given tables, not yet opened. */
    constructor (seed: seq<Row>, questions: map<string, Row>, meta: map<string, string>)
      requires TableValid(questions)
      ensures Valid() && dbRef == null
      ensures this.seed == seed && this.questions == questions && this.meta == meta
    {
      this.seed := seed;
      this.questions := questions;
      this.meta := meta;
      dbRef := null;
    }

    /** `ensureSchema`: creates what is missing and upserts the schema version. */
    method EnsureSchema()
      modifies this`meta
      ensures meta == old(meta)[SchemaVersionKey := SchemaVersion]
      ensures SchemaReady(meta)
      ensures SchemaReady(old(meta)) ==> meta == old(meta)
    {
      meta := meta[SchemaVersionKey := SchemaVersion];
    }

    /** `ensureSeed`: inserts the seed, one row at a time, into an empty table only. */
    method EnsureSeed()
      requires Valid()
      modifies this`questions
      ensures Valid()
      ensures questions == SeedStep(old(questions), seed)
      ensures |old(questions)| > 0 || seed == [] ==> questions == old(questions)
    {
      if |questions| > 0 {
        return;
      }
      if |seed| == 0 {
        return;
      }
      var i := 0;
      while i < |seed|
        invariant 0 <= i <= |seed|
        invariant questions == SeedInto(old(questions), seed[..i])
        invariant TableValid(questions)
      {
        var q := seed[i];
        if q.id !in questions && CheckConstraint(q) {
          questions := questions[q.id := q];
        }
        assert seed[..i + 1][..i] == seed[..i];
        i := i + 1;
      }
      assert seed[..|seed|] == seed;
    }

    /** `getDB`: the cached handle if there is one; otherwise open, ensure the schema, seed, and cache. */
    method GetDB() returns (db: Connection)
      requires Valid()
      modifies this
      ensures Valid() && dbRef == db
      ensures meta == old(meta)[SchemaVersionKey := SchemaVersion]
      ensures old(dbRef) != null ==> db == old(dbRef) && questions == old(questions) && meta == old(meta)
      ensures old(dbRef) == null ==> fresh(db) && questions == SeedStep(old(questions), seed)
    {
      if dbRef != null {
        db := dbRef;
        return;
      }
      db := new Connection();
      dbRef := db;
      EnsureSchema();
      EnsureSeed();
    }

    /** `loadQuestions`: opens if needed, clamps the count, and selects matching rows. */
    method LoadQuestions(topic: string, difficulty: string, count: int) returns (out: seq<Row>)
      requires Valid()
      modifies this
      ensures Valid() && dbRef != null
      ensures old(dbRef) != null ==> dbRef == old(dbRef) && questions == old(questions)
      ensures old(dbRef) == null ==> fresh(dbRef) && questions == SeedStep(old(questions), seed)
      ensures meta == old(meta)[SchemaVersionKey := SchemaVersion]
      ensures IsSelection(out, questions, topic, difficulty, EffectiveCount(count))
    {
      var db := GetDB();
      var n := EffectiveCount(count);
      out := SelectMatching(questions, topic, difficulty, n);
    }

    /** `resetQuestions`: deletes every row, then seeds the now empty table. */
    method ResetQuestions()
      requires Valid()
      modifies this
      ensures Valid() && dbRef != null
      ensures old(dbRef) != null ==> dbRef == old(dbRef)
      ensures old(dbRef) == null ==> fresh(dbRef)
      ensures questions == SeedInto(map[], seed)
      ensures meta == old(meta)[SchemaVersionKey := SchemaVersion]
    {
      var db := GetDB();
      questions := map[];
      EnsureSeed();
    }

    /** `nukeAndRecreate`: drops the handle and the whole file, then opens afresh. */
    method NukeAndRecreate()
      requires Valid()
      modifies this
      ensures Valid() && dbRef != null && fresh(dbRef)
      ensures questions == SeedInto(map[], seed)
      ensures meta == map[SchemaVersionKey := SchemaVersion]
    {
      if dbRef != null {
        dbRef := null;
      }
      questions := map[];
      meta := map[];
      var db := GetDB();
    }
  }
}
