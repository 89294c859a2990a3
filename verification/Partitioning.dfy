/**
 Partitioning the item tables by knowledge base, and folding them back: the statements one
 migration runs on the catalog, the two conversions built from them, and the runner that
 bounds every lock wait.
 */
module Partitioning {
  import opened Options
  import opened RowSecurity

  /** What a partition takes: the listed keys, or whatever no other partition lists. */
  datatype Bound = Otherwise | Listed(keys: set<string>)

  datatype Relation =
    | Plain(settings: Settings, rows: set<Row>, bm25: set<string>)
    | Parent(settings: Settings, parts: map<string, Bound>)

  type Db = map<string, Relation>

  datatype Error =
    | Unfinished | NoDefaultPartition | AlreadyAttached | UndefinedTable
    | CheckViolation | UniqueViolation | LockTimeout

  datatype Result<T> = Ok(value: T) | Err(error: Error)

  /** The migrating role, what it grants on new tables, and the relations other sessions hold. */
  datatype Session = Session(creator: string, defaults: Grants, busy: set<string>)

  const ITEM_TABLES := ["chunks", "full_documents", "graph_index_nodes"]

  const LOCK_TIMEOUT := "10000ms"

  const DEFAULT_SUFFIX := "_default"

  function DefaultOf(table: string): string {
    table + DEFAULT_SUFFIX
  }

  lemma DefaultsDiffer(t: string, u: string)
    requires DefaultOf(t) == DefaultOf(u)
    ensures t == u
  {
    assert t == DefaultOf(t)[..|DefaultOf(t)| - |DEFAULT_SUFFIX|];
    assert u == DefaultOf(u)[..|DefaultOf(u)| - |DEFAULT_SUFFIX|];
  }

  // ---- the catalog --------------------------------------------------------------------

  function LeafRows(db: Db, name: string): set<Row> {
    if name in db && db[name].Plain? then db[name].rows else {}
  }

  /** The rows of several relations together. */
  function RowsIn(db: Db, names: set<string>): set<Row> {
    set n, row | n in names && row in LeafRows(db, n) :: row
  }

  /** The rows a statement naming `name` ranges over. */
  function Rows(db: Db, name: string): set<Row> {
    if name in db && db[name].Parent? then RowsIn(db, db[name].parts.Keys) else LeafRows(db, name)
  }

  function Ids(rows: set<Row>): set<nat> {
    set row | row in rows :: row.id
  }

  /** PRIMARY KEY (id), which every leaf keeps for itself. */
  predicate Keyed(rows: set<Row>) {
    forall a, b :: a in rows && b in rows && a.id == b.id ==> a == b
  }

  predicate Fits(parts: map<string, Bound>, part: string, row: Row)
    requires part in parts
  {
    match parts[part]
    case Listed(keys) => row.kb in keys
    case Otherwise => forall q :: q in parts && parts[q].Listed? ==> row.kb !in parts[q].keys
  }

  /** No two partitions take the same key, and there is at most one for the rest. */
  predicate BoundsApart(parts: map<string, Bound>) {
    forall p, q :: p in parts && q in parts && p != q ==>
      && (parts[p].Listed? && parts[q].Listed? ==> parts[p].keys !! parts[q].keys)
      && !(parts[p].Otherwise? && parts[q].Otherwise?)
  }

  /** The routing invariant: a listed partition holds only its keys, and the default one none that is listed. */
  predicate Routed(db: Db, parts: map<string, Bound>) {
    && BoundsApart(parts)
    && forall p :: p in parts ==> p in db && db[p].Plain? && forall row :: row in db[p].rows ==> Fits(parts, p, row)
  }

  predicate AttachedTo(db: Db, parent: string, name: string) {
    parent in db && db[parent].Parent? && name in db[parent].parts
  }

  predicate Attached(db: Db, name: string) {
    exists n :: n in db && AttachedTo(db, n, name)
  }

  ghost predicate WellFormed(db: Db) {
    && (forall n :: n in db && db[n].Plain? ==> Keyed(db[n].rows))
    && (forall n :: n in db && db[n].Parent? ==> Routed(db, db[n].parts))
    && (forall m, n, p :: AttachedTo(db, m, p) && AttachedTo(db, n, p) ==> m == n)
  }

  // ---- statements ---------------------------------------------------------------------

  function WithPartRenamed(r: Relation, from: string, to: string): Relation {
    if r.Parent? && from in r.parts then r.(parts := r.parts[to := r.parts[from]] - {from}) else r
  }

  function Renamed(db: Db, from: string, to: string): Db
    requires from in db
  {
    map n | n in db.Keys - {from} + {to} :: WithPartRenamed(if n == to then db[from] else db[n], from, to)
  }

  function WithoutBm25(r: Relation): Relation {
    if r.Plain? then r.(bm25 := {}) else r
  }

  function Unindexed(db: Db, name: string): Db {
    if name in db then db[name := WithoutBm25(db[name])] else db
  }

  function Detached(db: Db, parent: string, part: string): Db
    requires parent in db && db[parent].Parent?
  {
    db[parent := db[parent].(parts := db[parent].parts - {part})]
  }

  /** Every parent the target is attached to accepts the row. */
  predicate Admissible(db: Db, target: string, row: Row) {
    forall n :: n in db && AttachedTo(db, n, target) ==> Fits(db[n].parts, target, row)
  }

  predicate CanInsert(db: Db, target: string, source: string) {
    && (forall row :: row in LeafRows(db, source) ==> Admissible(db, target, row))
    && Ids(LeafRows(db, source)) !! Ids(LeafRows(db, target))
  }

  function Inserted(db: Db, target: string, source: string): Db
    requires target in db && db[target].Plain?
  {
    db[target := db[target].(rows := db[target].rows + LeafRows(db, source))]
  }

  lemma DetachKeepsRouting(db: Db, parent: string, part: string)
    requires WellFormed(db) && parent in db && db[parent].Parent?
    ensures WellFormed(Detached(db, parent, part))
  {
    var next := Detached(db, parent, part);
    forall m, n, p | AttachedTo(next, m, p) && AttachedTo(next, n, p) ensures m == n {
      assert AttachedTo(db, m, p) && AttachedTo(db, n, p);
    }
    forall n | n in next && next[n].Parent? ensures Routed(next, next[n].parts) {
      assert Routed(db, db[n].parts);
    }
  }

  lemma InsertKeepsRouting(db: Db, target: string, source: string)
    requires WellFormed(db) && target in db && db[target].Plain? && CanInsert(db, target, source)
    requires source in db && db[source].Plain?
    ensures WellFormed(Inserted(db, target, source))
  {
    var next := Inserted(db, target, source);
    forall a, b | a in next[target].rows && b in next[target].rows && a.id == b.id ensures a == b {
      assert a.id in Ids(LeafRows(db, source)) ==> a.id !in Ids(LeafRows(db, target));
    }
    forall m, n, p | AttachedTo(next, m, p) && AttachedTo(next, n, p) ensures m == n {
      assert AttachedTo(db, m, p) && AttachedTo(db, n, p);
    }
    forall n | n in next && next[n].Parent? ensures Routed(next, next[n].parts) {
      assert Routed(db, db[n].parts);
      if target in db[n].parts {
        assert AttachedTo(db, n, target);
        forall row | row in LeafRows(db, source) ensures Fits(db[n].parts, target, row) {
          assert Admissible(db, target, row);
        }
      }
    }
  }

  /** DROP TABLE: a parent takes the partitions it still has with it. */
  function Dropped(db: Db, name: string): Db
    requires name in db
  {
    db - {name} - (if db[name].Parent? then db[name].parts.Keys else {})
  }

  lemma DropKeepsRouting(db: Db, name: string)
    requires WellFormed(db) && name in db && !Attached(db, name)
    ensures WellFormed(Dropped(db, name))
  {
    var next := Dropped(db, name);
    forall m, n, p | AttachedTo(next, m, p) && AttachedTo(next, n, p) ensures m == n {
      assert AttachedTo(db, m, p) && AttachedTo(db, n, p);
    }
    forall n | n in next && next[n].Parent? ensures Routed(next, next[n].parts) {
      assert Routed(db, db[n].parts);
      assert !AttachedTo(db, n, name);
      forall p | p in db[n].parts ensures p in next {
        assert AttachedTo(db, n, p);
        assert db[name].Parent? && p in db[name].parts ==> AttachedTo(db, name, p);
      }
    }
  }

  lemma UnindexKeepsRouting(db: Db, name: string)
    requires WellFormed(db)
    ensures WellFormed(Unindexed(db, name))
  {
    var next := Unindexed(db, name);
    forall m, n, p | AttachedTo(next, m, p) && AttachedTo(next, n, p) ensures m == n {
      assert AttachedTo(db, m, p) && AttachedTo(db, n, p);
    }
    forall n | n in next && next[n].Parent? ensures Routed(next, next[n].parts) {
      assert Routed(db, db[n].parts);
    }
  }

  /** A key that is still listed cannot go into the default partition: the detach has to come first. */
  lemma InsertBeforeDetachFails(db: Db, parent: string, part: string, rest: string)
    requires WellFormed(db) && AttachedTo(db, parent, part) && AttachedTo(db, parent, rest) && part != rest
    requires db[parent].parts[rest].Otherwise?
    ensures CanInsert(db, rest, part) <==> LeafRows(db, part) == {}
  {
    assert Routed(db, db[parent].parts);
    if row :| row in LeafRows(db, part) {
      assert Fits(db[parent].parts, part, row);
      assert !Fits(db[parent].parts, rest, row);
      assert !Admissible(db, rest, row);
    }
  }

  // ---- the conversions as functions ---------------------------------------------------

  function NewParent(s: Session): Relation {
    Parent(Created(s.creator, s.defaults), map[])
  }

  function ParentOver(s: Session, settings: Settings, rest: string): Relation {
    Parent(ParentSettings(settings, s.creator, s.defaults), map[rest := Otherwise])
  }

  function Partitioned(db: Db, s: Session, table: string): Result<Db> {
    var rest := DefaultOf(table);
    if table !in db || db[table].Parent? then Ok(db)
    else if rest in db then Err(Unfinished)
    else if table in s.busy then Err(LockTimeout)
    else if Attached(db, table) then Err(AlreadyAttached)
    else if !Copyable(db[table].settings, Created(s.creator, s.defaults)) then Err(UndefinedTable)
    else Ok(db[rest := WithoutBm25(db[table])][table := ParentOver(s, db[table].settings, rest)])
  }

  predicate IdsApart(db: Db, names: set<string>) {
    forall p, q :: p in names && q in names && p != q ==> Ids(LeafRows(db, p)) !! Ids(LeafRows(db, q))
  }

  /** What undoing the partitioning of a parent takes. */
  predicate Foldable(db: Db, s: Session, table: string)
    requires table in db && db[table].Parent?
  {
    var parts, rest := db[table].parts, DefaultOf(table);
    && rest in parts
    && s.busy !! parts.Keys + {table}
    && (parts[rest].Otherwise? || forall p :: p in parts && p != rest ==> LeafRows(db, p) == {})
    && IdsApart(db, parts.Keys)
  }

  /** One plain table with the settings of the default partition and the rows of all of them. */
  function FoldedInto(db: Db, table: string): Db
    requires table in db && db[table].Parent? && DefaultOf(table) in db
  {
    (db - db[table].parts.Keys)[table := Plain(db[DefaultOf(table)].settings, Rows(db, table), {})]
  }

  function Folded(db: Db, s: Session, table: string): Option<Db> {
    if table !in db || db[table].Plain? then Some(db)
    else if Foldable(db, s, table) && DefaultOf(table) in db then Some(FoldedInto(db, table))
    else None
  }

  /** The state between two turns of the loop: some partitions are folded into the default one. */
  function FoldedSoFar(db: Db, table: string, done: set<string>): Db
    requires table in db && db[table].Parent? && DefaultOf(table) in db && db[DefaultOf(table)].Plain?
  {
    var rest := DefaultOf(table);
    (db - done)[rest := Plain(db[rest].settings, RowsIn(db, done + {rest}), {})]
               [table := db[table].(parts := db[table].parts - done)]
  }

  /** One turn of the loop: `p` is gone, its rows are in the default partition. */
  function FoldedOne(db: Db, table: string, rest: string, p: string): Db
    requires AttachedTo(db, table, p) && rest in db && db[rest].Plain?
  {
    (db - {p})[rest := db[rest].(rows := db[rest].rows + LeafRows(db, p))]
              [table := db[table].(parts := db[table].parts - {p})]
  }

  lemma SameAdmissible(one: Db, two: Db, target: string, row: Row)
    requires forall n :: AttachedTo(one, n, target) <==> AttachedTo(two, n, target)
    requires forall n :: AttachedTo(one, n, target) && AttachedTo(two, n, target) ==> one[n].parts == two[n].parts
    ensures Admissible(one, target, row) <==> Admissible(two, target, row)
  {
  }

  lemma SameInsert(db: Db, table: string, rest: string, p: string)
    requires AttachedTo(db, table, p) && p in db && db[p].Plain? && p != rest
    ensures
      CanInsert(Detached(Unindexed(db, p), table, p), rest, p) <==> CanInsert(Detached(db, table, p), rest, p)
  {
    var one, two := Detached(Unindexed(db, p), table, p), Detached(db, table, p);
    forall row ensures Admissible(one, rest, row) <==> Admissible(two, rest, row) {
      SameAdmissible(one, two, rest, row);
    }
    assert LeafRows(one, p) == LeafRows(two, p) && LeafRows(one, rest) == LeafRows(two, rest);
  }

  lemma OnlyAttachment(db: Db, table: string, p: string)
    requires WellFormed(db) && AttachedTo(db, table, p)
    ensures !Attached(Detached(db, table, p), p)
  {
    var next := Detached(db, table, p);
    if n :| n in next && AttachedTo(next, n, p) {
      assert AttachedTo(db, n, p);
    }
  }

  lemma InsertThenDrop(db: Db, rest: string, p: string)
    requires WellFormed(db) && !Attached(db, p) && p != rest
    requires rest in db && db[rest].Plain? && p in db && db[p].Plain? && CanInsert(db, rest, p)
    ensures WellFormed(Inserted(db, rest, p)) && WellFormed(Dropped(Inserted(db, rest, p), p))
  {
    InsertKeepsRouting(db, rest, p);
    var inserted := Inserted(db, rest, p);
    forall n | n in inserted ensures !AttachedTo(inserted, n, p) {
      assert !AttachedTo(db, n, p);
    }
    DropKeepsRouting(inserted, p);
  }

  /** The four statements of one turn: each keeps the routing invariant. */
  lemma FoldTurn(db: Db, table: string, rest: string, p: string)
    requires WellFormed(db) && AttachedTo(db, table, p) && AttachedTo(db, table, rest) && p != rest
    requires rest in db && db[rest].Plain? && p in db && db[p].Plain?
    ensures WellFormed(Unindexed(db, p)) && WellFormed(Detached(Unindexed(db, p), table, p))
    ensures
      var detached := Detached(Unindexed(db, p), table, p);
      && Dropped(Inserted(detached, rest, p), p) == FoldedOne(db, table, rest, p)
      && (CanInsert(detached, rest, p) ==>
            WellFormed(Inserted(detached, rest, p)) && WellFormed(Dropped(Inserted(detached, rest, p), p)))
  {
    UnindexKeepsRouting(db, p);
    var unindexed := Unindexed(db, p);
    DetachKeepsRouting(unindexed, table, p);
    OnlyAttachment(unindexed, table, p);
    var detached := Detached(unindexed, table, p);
    if CanInsert(detached, rest, p) { InsertThenDrop(detached, rest, p); }
    FoldTurnResult(db, table, rest, p);
  }

  lemma FoldTurnResult(db: Db, table: string, rest: string, p: string)
    requires AttachedTo(db, table, p) && p != rest && rest in db && db[rest].Plain? && p in db && db[p].Plain?
    ensures Dropped(Inserted(Detached(Unindexed(db, p), table, p), rest, p), p) == FoldedOne(db, table, rest, p)
  {
  }

  predicate FoldingFrom(db: Db, table: string) {
    table in db && db[table].Parent? && DefaultOf(table) in db[table].parts
  }

  lemma FoldStarts(db: Db, table: string)
    requires WellFormed(db) && FoldingFrom(db, table)
    ensures DefaultOf(table) in db && db[DefaultOf(table)].Plain?
    ensures Unindexed(db, DefaultOf(table)) == FoldedSoFar(db, table, {})
  {
    var rest := DefaultOf(table);
    assert Routed(db, db[table].parts);
    assert rest in {} + {rest};
    assert forall row :: row in RowsIn(db, {} + {rest}) <==> row in LeafRows(db, rest);
    assert RowsIn(db, {} + {rest}) == db[rest].rows;
    assert db[table].parts - {} == db[table].parts;
    assert db - {} == db;
  }

  lemma FoldAdvances(db: Db, table: string, done: set<string>, p: string)
    requires WellFormed(db) && FoldingFrom(db, table) && done <= db[table].parts.Keys - {DefaultOf(table)}
    requires p in db[table].parts && p !in done && p != DefaultOf(table)
    requires DefaultOf(table) in db && db[DefaultOf(table)].Plain?
    ensures FoldedOne(FoldedSoFar(db, table, done), table, DefaultOf(table), p) == FoldedSoFar(db, table, done + {p})
  {
    var rest := DefaultOf(table);
    assert Routed(db, db[table].parts);
    var so := FoldedSoFar(db, table, done);
    assert LeafRows(so, p) == LeafRows(db, p);
    assert RowsIn(db, done + {p} + {rest}) == RowsIn(db, done + {rest}) + LeafRows(db, p);
    assert db[table].parts - done - {p} == db[table].parts - (done + {p});
    assert (db - done) - {p} == db - (done + {p});
  }

  lemma IdsOfSeveral(db: Db, names: set<string>, i: nat)
    ensures i in Ids(RowsIn(db, names)) <==> exists n :: n in names && i in Ids(LeafRows(db, n))
  {
    if i in Ids(RowsIn(db, names)) {
      var row :| row in RowsIn(db, names) && row.id == i;
      var n :| n in names && row in LeafRows(db, n);
      assert i in Ids(LeafRows(db, n));
    }
    if n :| n in names && i in Ids(LeafRows(db, n)) {
      var row :| row in LeafRows(db, n) && row.id == i;
      assert row in RowsIn(db, names);
    }
  }

  /** After the detach, the default partition takes a row of the partition exactly if it is the one for the rest. */
  lemma FoldAdmits(db: Db, table: string, done: set<string>, p: string, row: Row)
    requires WellFormed(db) && FoldingFrom(db, table) && done <= db[table].parts.Keys - {DefaultOf(table)}
    requires p in db[table].parts && p !in done && p != DefaultOf(table) && row in LeafRows(db, p)
    requires DefaultOf(table) in db && db[DefaultOf(table)].Plain?
    ensures Admissible(Detached(FoldedSoFar(db, table, done), table, p), DefaultOf(table), row) <==>
            db[table].parts[DefaultOf(table)].Otherwise?
  {
    var rest, parts := DefaultOf(table), db[table].parts;
    assert Routed(db, parts);
    var cur := Detached(FoldedSoFar(db, table, done), table, p);
    assert AttachedTo(db, table, rest) && AttachedTo(cur, table, rest);
    assert cur[table].parts == parts - done - {p};
    forall n | n in cur && AttachedTo(cur, n, rest) ensures n == table {
      assert AttachedTo(db, n, rest);
    }
    assert Fits(parts, p, row);
    if parts[rest].Otherwise? {
      assert parts[p].Listed?;
      assert Fits(cur[table].parts, rest, row);
    } else {
      assert !Fits(cur[table].parts, rest, row);
    }
  }

  /** After the detach, the rows go in exactly if the default partition is one for the rest and the ids are new. */
  lemma FoldTakes(db: Db, table: string, done: set<string>, p: string)
    requires WellFormed(db) && FoldingFrom(db, table) && done <= db[table].parts.Keys - {DefaultOf(table)}
    requires p in db[table].parts && p !in done && p != DefaultOf(table)
    requires DefaultOf(table) in db && db[DefaultOf(table)].Plain?
    ensures
      var rest := DefaultOf(table);
      CanInsert(Detached(FoldedSoFar(db, table, done), table, p), rest, p) <==>
        && (db[table].parts[rest].Otherwise? || LeafRows(db, p) == {})
        && forall q :: q in done + {rest} ==> Ids(LeafRows(db, p)) !! Ids(LeafRows(db, q))
  {
    var rest := DefaultOf(table);
    assert Routed(db, db[table].parts);
    var cur := Detached(FoldedSoFar(db, table, done), table, p);
    assert LeafRows(cur, p) == LeafRows(db, p) && LeafRows(cur, rest) == RowsIn(db, done + {rest});
    forall row | row in LeafRows(db, p)
      ensures Admissible(cur, rest, row) <==> db[table].parts[rest].Otherwise?
    {
      FoldAdmits(db, table, done, p, row);
    }
    forall i ensures i in Ids(LeafRows(cur, rest)) <==> exists q :: q in done + {rest} && i in Ids(LeafRows(db, q)) {
      IdsOfSeveral(db, done + {rest}, i);
    }
  }

  /** The detached default partition under the parent's name is the whole fold. */
  lemma FoldEnds(db: Db, table: string, done: set<string>)
    requires WellFormed(db) && FoldingFrom(db, table) && done == db[table].parts.Keys - {DefaultOf(table)}
    requires DefaultOf(table) in db && db[DefaultOf(table)].Plain?
    ensures
      var rest := DefaultOf(table);
      var left := Dropped(Detached(FoldedSoFar(db, table, done), table, rest), table);
      && rest in left && table !in left && Renamed(left, rest, table) == FoldedInto(db, table)
  {
    var rest := DefaultOf(table);
    assert Routed(db, db[table].parts);
    assert done + {rest} == db[table].parts.Keys;
    var last := Detached(FoldedSoFar(db, table, done), table, rest);
    assert last[table].parts == map[];
    var left := Dropped(last, table);
    forall n | n in left ensures !AttachedTo(left, n, rest) {
      if AttachedTo(left, n, rest) {
        assert AttachedTo(db, n, rest) && AttachedTo(db, table, rest);
      }
    }
    RenameUnattached(left, rest, table);
    assert (left - {rest})[table := left[rest]] == FoldedInto(db, table);
  }

  /** What the turns done so far have shown about the fold. */
  predicate FoldsSoFar(db: Db, s: Session, table: string, done: set<string>)
    requires FoldingFrom(db, table)
  {
    var rest := DefaultOf(table);
    && (done != {} ==> s.busy !! done + {rest, table})
    && (db[table].parts[rest].Otherwise? || forall p :: p in done ==> LeafRows(db, p) == {})
    && IdsApart(db, done + {rest})
  }

  lemma ApartWithOneMore(db: Db, names: set<string>, p: string)
    requires IdsApart(db, names) && forall q :: q in names ==> Ids(LeafRows(db, p)) !! Ids(LeafRows(db, q))
    ensures IdsApart(db, names + {p})
  {
  }

  lemma FoldGoesOn(db: Db, s: Session, table: string, done: set<string>, p: string)
    requires WellFormed(db) && FoldingFrom(db, table) && done <= db[table].parts.Keys - {DefaultOf(table)}
    requires p in db[table].parts && p !in done && p != DefaultOf(table)
    requires DefaultOf(table) in db && db[DefaultOf(table)].Plain?
    requires FoldsSoFar(db, s, table, done) && s.busy !! {table, DefaultOf(table), p}
    requires CanInsert(Detached(FoldedSoFar(db, table, done), table, p), DefaultOf(table), p)
    ensures FoldsSoFar(db, s, table, done + {p})
  {
    var rest := DefaultOf(table);
    FoldTakes(db, table, done, p);
    ApartWithOneMore(db, done + {rest}, p);
    assert done + {rest} + {p} == done + {p} + {rest};
  }

  lemma FoldStops(db: Db, s: Session, table: string, done: set<string>, p: string)
    requires WellFormed(db) && FoldingFrom(db, table) && done <= db[table].parts.Keys - {DefaultOf(table)}
    requires p in db[table].parts && p !in done && p != DefaultOf(table)
    requires DefaultOf(table) in db && db[DefaultOf(table)].Plain?
    requires !(s.busy !! {table, DefaultOf(table), p}) ||
             !CanInsert(Detached(FoldedSoFar(db, table, done), table, p), DefaultOf(table), p)
    ensures !Foldable(db, s, table)
  {
    FoldTakes(db, table, done, p);
    var rest := DefaultOf(table);
    assert forall q :: q in done + {rest} ==> q in db[table].parts && p != q;
    assert {table, rest, p} <= db[table].parts.Keys + {table};
  }

  /** The conversions keep the routing invariant. */
  lemma PartitionKeepsRouting(db: Db, s: Session, table: string)
    requires WellFormed(db) && Partitioned(db, s, table).Ok?
    ensures WellFormed(Partitioned(db, s, table).value)
  {
    var next := Partitioned(db, s, table).value;
    if next != db {
      var rest := DefaultOf(table);
      NotAttachedIfMissing(db, rest);
      assert !AttachedTo(db, table, table);
      forall n, p | n != table && AttachedTo(next, n, p) ensures AttachedTo(db, n, p) && p != rest && p != table {
        assert !AttachedTo(db, n, rest) && !AttachedTo(db, n, table);
      }
      assert next[table].parts.Keys == {rest};
      forall m, n, p | AttachedTo(next, m, p) && AttachedTo(next, n, p) ensures m == n {
        assert m != table && n != table ==> AttachedTo(db, m, p) && AttachedTo(db, n, p);
      }
      forall n | n in next && next[n].Parent? ensures Routed(next, next[n].parts) {
        if n != table {
          assert Routed(db, db[n].parts);
          assert forall p :: p in next[n].parts ==> AttachedTo(next, n, p);
        }
      }
    }
  }

  lemma UnionKeyed(db: Db, names: set<string>)
    requires IdsApart(db, names) && forall n :: n in names ==> Keyed(LeafRows(db, n))
    ensures Keyed(RowsIn(db, names))
  {
    forall a, b | a in RowsIn(db, names) && b in RowsIn(db, names) && a.id == b.id ensures a == b {
      var p :| p in names && a in LeafRows(db, p);
      var q :| q in names && b in LeafRows(db, q);
      assert a.id in Ids(LeafRows(db, p)) && a.id in Ids(LeafRows(db, q));
    }
  }

  lemma FoldKeepsRouting(db: Db, s: Session, table: string)
    requires WellFormed(db) && Folded(db, s, table).Some?
    ensures WellFormed(Folded(db, s, table).value)
  {
    var next := Folded(db, s, table).value;
    if table in db && db[table].Parent? {
      assert Routed(db, db[table].parts);
      UnionKeyed(db, db[table].parts.Keys);
      forall n | n in db && db[n].Parent? && n != table ensures db[n].parts.Keys !! db[table].parts.Keys + {table} {
        assert Routed(db, db[n].parts);
        forall p | p in db[n].parts ensures p !in db[table].parts {
          assert AttachedTo(db, n, p) && (AttachedTo(db, table, p) ==> n == table);
        }
      }
      forall m, n, p | AttachedTo(next, m, p) && AttachedTo(next, n, p) ensures m == n {
        assert AttachedTo(db, m, p) && AttachedTo(db, n, p);
      }
      forall n | n in next && next[n].Parent? ensures Routed(next, next[n].parts) {
        assert Routed(db, db[n].parts);
      }
    }
  }

  /**
   `table` in `db` became a parent with the default partition alone, which takes its place: the
   same settings, the same rows, and no bm25 index.
   */
  ghost predicate ConvertedInto(db: Db, next: Db, table: string)
    requires table in db && db[table].Plain?
  {
    var rest := table + "_default";
    && rest in next && next[rest] == Plain(db[table].settings, db[table].rows, {})
    && table in next && next[table].Parent? && next[table].parts == map[rest := Otherwise]
  }

  lemma PartitionConverts(db: Db, s: Session, table: string)
    requires Partitioned(db, s, table).Ok? && table in db && db[table].Plain?
    ensures ConvertedInto(db, Partitioned(db, s, table).value, table)
  {
  }

  function PartitionedAll(db: Db, s: Session, tables: seq<string>): Result<Db>
    decreases |tables|
  {
    if tables == [] then Ok(db)
    else
      match Partitioned(db, s, tables[0])
      case Err(e) => Err(e)
      case Ok(next) => PartitionedAll(next, s, tables[1..])
  }

  /** No table is listed twice or is another one's default partition. */
  predicate Independent(tables: seq<string>) {
    forall i, j :: 0 <= i < |tables| && 0 <= j < |tables| ==>
      tables[i] != DefaultOf(tables[j]) && (i != j ==> tables[i] != tables[j])
  }

  lemma DefaultEnds(t: string)
    ensures DefaultOf(t)[|DefaultOf(t)| - 1] == 't'
  {
  }

  lemma ItemTablesIndependent()
    ensures Independent(ITEM_TABLES)
  {
    assert |ITEM_TABLES[0]| == 6 && |ITEM_TABLES[1]| == 14 && |ITEM_TABLES[2]| == 17;
    forall i, j | 0 <= i < 3 && 0 <= j < 3 ensures ITEM_TABLES[i] != DefaultOf(ITEM_TABLES[j]) {
      DefaultEnds(ITEM_TABLES[j]);
      assert ITEM_TABLES[i][|ITEM_TABLES[i]| - 1] == 's';
    }
  }

  lemma {:induction false} OthersUntouched(db: Db, s: Session, tables: seq<string>, n: string)
    requires PartitionedAll(db, s, tables).Ok?
    requires forall u :: u in tables ==> n != u && n != DefaultOf(u)
    ensures
      var next := PartitionedAll(db, s, tables).value;
      (n in next <==> n in db) && (n in db ==> next[n] == db[n])
    decreases |tables|
  {
    if tables != [] {
      assert forall u :: u in tables[1..] ==> u in tables;
      OthersUntouched(Partitioned(db, s, tables[0]).value, s, tables[1..], n);
    }
  }

  lemma {:induction false} EveryTableConverts(db: Db, s: Session, tables: seq<string>, t: string)
    requires Independent(tables) && PartitionedAll(db, s, tables).Ok?
    requires t in tables && t in db && db[t].Plain?
    ensures ConvertedInto(db, PartitionedAll(db, s, tables).value, t)
    decreases |tables|
  {
    var u, rest := tables[0], tables[1..];
    var next := Partitioned(db, s, u).value;
    if t == u {
      PartitionConverts(db, s, t);
      forall v | v in rest ensures t != v && t != DefaultOf(v) && DefaultOf(t) != v && DefaultOf(t) != DefaultOf(v) {
        if DefaultOf(t) == DefaultOf(v) { DefaultsDiffer(t, v); }
      }
      OthersUntouched(next, s, rest, t);
      OthersUntouched(next, s, rest, DefaultOf(t));
    } else {
      assert t in rest;
      EveryTableConverts(next, s, rest, t);
    }
  }

  function FoldedAll(db: Db, s: Session, tables: seq<string>): Option<Db>
    decreases |tables|
  {
    if tables == [] then Some(db)
    else
      match Folded(db, s, tables[0])
      case None => None
      case Some(next) => FoldedAll(next, s, tables[1..])
  }

  /**
   The parent `table` in `db` became one plain table without bm25 indexes: the settings of the
   default partition, the rows of all partitions, and no partition left.
   */
  ghost predicate OneTableOf(db: Db, next: Db, table: string)
    requires table in db && db[table].Parent?
  {
    && table + "_default" in db && table in next && next[table].Plain?
    && next[table].settings == db[table + "_default"].settings && next[table].bm25 == {}
    && (forall row :: row in next[table].rows <==>
          exists p :: p in db[table].parts && p in db && db[p].Plain? && row in db[p].rows)
    && (forall p :: p in db[table].parts && p != table ==> p !in next)
  }

  lemma FoldGivesOneTable(db: Db, s: Session, table: string)
    requires table in db && db[table].Parent? && Folded(db, s, table).Some?
    ensures OneTableOf(db, Folded(db, s, table).value, table)
  {
    var next := Folded(db, s, table).value;
    forall row ensures row in next[table].rows <==>
      exists p :: p in db[table].parts && p in db && db[p].Plain? && row in db[p].rows
    {
      if p :| p in db[table].parts && p in db && db[p].Plain? && row in db[p].rows {
        assert row in LeafRows(db, p);
      }
    }
  }

  lemma SetTwice(db: Db, name: string, first: Settings, second: Settings)
    requires name in db
    ensures WithSettings(WithSettings(db, name, first), name, second) == WithSettings(db, name, second)
  {
  }

  /** When every turn was possible, only the locks of the last statements can still be missing. */
  lemma FoldVerdict(db: Db, s: Session, table: string)
    requires FoldingFrom(db, table) && FoldsSoFar(db, s, table, db[table].parts.Keys - {DefaultOf(table)})
    ensures Foldable(db, s, table) <==> s.busy !! {table, DefaultOf(table)}
  {
    var rest, others := DefaultOf(table), db[table].parts.Keys - {DefaultOf(table)};
    assert others + {rest} == db[table].parts.Keys;
  }

  /** Between two turns of the loop that began in `start`. */
  ghost predicate Folding(db: Db, start: Db, s: Session, table: string, done: set<string>)
    requires FoldingFrom(start, table) && DefaultOf(table) in start && start[DefaultOf(table)].Plain?
  {
    WellFormed(db) && db == FoldedSoFar(start, table, done) && FoldsSoFar(start, s, table, done)
  }

  function WithSettings(db: Db, name: string, settings: Settings): Db
    requires name in db
  {
    db[name := db[name].(settings := settings)]
  }

  lemma NotAttachedIfMissing(db: Db, name: string)
    requires WellFormed(db) && name !in db
    ensures !Attached(db, name)
  {
    forall n | n in db && db[n].Parent? ensures name !in db[n].parts {
      assert Routed(db, db[n].parts);
    }
  }

  lemma RenameUnattached(db: Db, from: string, to: string)
    requires from in db && to !in db && db[from].Plain? && !Attached(db, from)
    ensures Renamed(db, from, to) == (db - {from})[to := db[from]]
  {
    forall n | n in db && n != from ensures WithPartRenamed(db[n], from, to) == db[n] {
      assert !AttachedTo(db, n, from);
    }
  }

  lemma UnindexedAttached(db: Db, name: string, part: string)
    ensures Attached(Unindexed(db, name), part) <==> Attached(db, part)
  {
    var next := Unindexed(db, name);
    assert forall n :: AttachedTo(next, n, part) <==> AttachedTo(db, n, part);
  }

  /** A renamed partition stays attached where it was. */
  lemma RenameAttachment(db: Db, from: string, to: string, s: Session)
    requires from in db && to !in db && db[from].Plain? && !Attached(db, to)
    ensures Attached(Renamed(db, from, to)[from := NewParent(s)], to) <==> Attached(db, from)
  {
    var next := Renamed(db, from, to)[from := NewParent(s)];
    if n :| n in db && AttachedTo(db, n, from) {
      assert n in next && AttachedTo(next, n, to);
    }
    if n :| n in next && AttachedTo(next, n, to) {
      assert !AttachedTo(db, n, to);
      assert n in db && AttachedTo(db, n, from);
    }
  }

  lemma RenamedAttached(db: Db, table: string, rest: string, s: Session)
    requires WellFormed(db) && table in db && db[table].Plain? && rest !in db
    ensures Attached(Renamed(Unindexed(db, table), table, rest)[table := NewParent(s)], rest) <==> Attached(db, table)
  {
    NotAttachedIfMissing(db, rest);
    UnindexedAttached(db, table, table);
    UnindexedAttached(db, table, rest);
    RenameAttachment(Unindexed(db, table), table, rest, s);
  }

  /** What the first two statements of the conversion leave. */
  lemma RenamedAway(db: Db, table: string, rest: string, s: Session)
    requires WellFormed(db) && table in db && db[table].Plain? && rest !in db
    ensures
      var next := Renamed(Unindexed(db, table), table, rest);
      && next.Keys == db.Keys - {table} + {rest} && next[rest] == WithoutBm25(db[table])
      && (Attached(next[table := NewParent(s)], rest) <==> Attached(db, table))
      && (!Attached(db, table) ==> next == (db - {table})[rest := WithoutBm25(db[table])])
  {
    var plain := Unindexed(db, table);
    RenamedAttached(db, table, rest, s);
    if !Attached(db, table) {
      UnindexedAttached(db, table, table);
      RenameUnattached(plain, table, rest);
      assert plain - {table} == db - {table};
    }
  }

  // ---- the migration ------------------------------------------------------------------

  class Catalog {
    var db: Db
    var lockTimeout: string
    const session: Session

    constructor (db: Db, lockTimeout: string, session: Session)
      ensures this.db == db && this.lockTimeout == lockTimeout && this.session == session
    {
      this.db := db;
      this.lockTimeout := lockTimeout;
      this.session := session;
    }

    method DropBm25Indexes(name: string) returns (failed: Option<Error>)
      modifies this`db
      ensures failed.None? ==> db == Unindexed(old(db), name)
      ensures failed.Some? ==> failed.value == LockTimeout && name in session.busy
    {
      failed := None;
      if name !in db || db[name].Parent? { return; }
      var todo := db[name].bm25;
      while todo != {}
        invariant db == old(db)[name := old(db)[name].(bm25 := todo)]
        decreases todo
      {
        if name in session.busy { return Some(LockTimeout); }
        var index :| index in todo;
        todo := todo - {index};
        db := db[name := db[name].(bm25 := todo)];
      }
    }

    method Rename(from: string, to: string) returns (failed: Option<Error>)
      requires from in db && to !in db
      modifies this`db
      ensures failed == if from in session.busy then Some(LockTimeout) else None
      ensures db == if failed.None? then Renamed(old(db), from, to) else old(db)
    {
      if from in session.busy { return Some(LockTimeout); }
      db := Renamed(db, from, to);
      failed := None;
    }

    method CreateParent(table: string)
      requires table !in db
      modifies this`db
      ensures db == old(db)[table := NewParent(session)]
    {
      db := db[table := NewParent(session)];
    }

    method AttachDefault(parent: string, part: string) returns (failed: Option<Error>)
      requires parent in db && db[parent].Parent? && db[parent].parts == map[]
      modifies this`db
      ensures failed == if Attached(old(db), part) then Some(AlreadyAttached) else None
      ensures db ==
        if failed.None? then old(db)[parent := old(db)[parent].(parts := map[part := Otherwise])] else old(db)
    {
      if Attached(db, part) { return Some(AlreadyAttached); }
      db := db[parent := db[parent].(parts := map[part := Otherwise])];
      failed := None;
    }

    /** ALTER TABLE, GRANT, CREATE POLICY. */
    method Alter(name: string, settings: Settings)
      requires name in db
      modifies this`db
      ensures db == WithSettings(old(db), name, settings)
    {
      db := db[name := db[name].(settings := settings)];
    }

    /** One GRANT of the loop. */
    method GrantTo(source: Settings, target: string, who: Grantee, ghost created: Settings, ghost done: set<Grantee>)
      requires target in db && db[target].settings == MirroredTo(source, created, done)
      requires source.acl.Explicit? && who in source.acl.grants && who !in done
      modifies this`db
      ensures db == WithSettings(old(db), target, MirroredTo(source, created, done + {who}))
    {
      OneMoreGrant(source, created, done, who);
      Alter(target, Grant(db[target].settings, who, source.acl.grants[who]));
    }

    /** The loop of `_mirror_settings` over the named grantees. */
    method CopyGrants(source: Settings, target: string, ghost created: Settings)
      requires target in db && db[target].settings == MirroredTo(source, created, {})
      modifies this`db
      ensures db == WithSettings(old(db), target, Mirrored(source, created))
    {
      var todo := NamedGrantees(source);
      ghost var done: set<Grantee> := {};
      while todo != {}
        invariant done + todo == NamedGrantees(source) && done !! todo
        invariant db == WithSettings(old(db), target, MirroredTo(source, created, done))
        decreases todo
      {
        var who :| who in todo;
        SetTwice(old(db), target, MirroredTo(source, created, done), MirroredTo(source, created, done + {who}));
        GrantTo(source, target, who, created, done);
        todo, done := todo - {who}, done + {who};
      }
      assert done == NamedGrantees(source);
    }

    /** `_mirror_settings`. */
    method MirrorSettings(source: string, target: string)
      requires source in db && target in db && source != target
      modifies this`db
      ensures db == WithSettings(old(db), target, Mirrored(old(db)[source].settings, old(db)[target].settings))
    {
      var src := db[source].settings;
      ghost var created := db[target].settings;
      Alter(target, OwnedBy(db[target].settings, src.owner));
      if src.rls {
        Alter(target, db[target].settings.(rls := true));
      }
      CopyGrants(src, target, created);
    }

    /** `_copy_policies`; the text of a correlated policy names the source and is refused on the target. */
    method CopyPolicies(source: string, target: string) returns (failed: Option<Error>)
      requires source in db && target in db && source != target
      modifies this`db
      ensures failed ==
        if Copyable(old(db)[source].settings, old(db)[target].settings) then None else Some(UndefinedTable)
      ensures failed.None? ==>
        db == WithSettings(old(db), target, WithPoliciesOf(old(db)[source].settings, old(db)[target].settings))
    {
      var policies := db[source].settings.policies;
      ghost var tgt := db[target].settings;
      var todo := policies.Keys - db[target].settings.policies.Keys;
      assert (policies - todo) + tgt.policies == tgt.policies;
      while todo != {}
        invariant todo <= policies.Keys - tgt.policies.Keys
        invariant forall name ::
          name in policies && name !in tgt.policies && name !in todo ==> !policies[name].correlated
        invariant db == WithSettings(old(db), target, tgt.(policies := (policies - todo) + tgt.policies))
        decreases todo
      {
        var name :| name in todo;
        if policies[name].correlated { return Some(UndefinedTable); }
        assert ((policies - todo) + tgt.policies)[name := policies[name]] ==
               (policies - (todo - {name})) + tgt.policies;
        Alter(target, db[target].settings.(policies := db[target].settings.policies[name := policies[name]]));
        todo := todo - {name};
      }
      assert policies - todo == policies;
      failed := None;
    }

    /** `_mirror_settings` and `_copy_policies`, one after the other. */
    method CopyAccess(source: string, target: string) returns (failed: Option<Error>)
      requires source in db && target in db && source != target
      modifies this`db
      ensures failed ==
        if Copyable(old(db)[source].settings, old(db)[target].settings) then None else Some(UndefinedTable)
      ensures failed.None? ==>
        var from, to := old(db)[source].settings, old(db)[target].settings;
        db == WithSettings(old(db), target, WithPoliciesOf(from, Mirrored(from, to)))
    {
      MirrorSettings(source, target);
      failed := CopyPolicies(source, target);
    }

    /** The statements of `_partition_one` after the rename. */
    method CreateOver(table: string, rest: string) returns (failed: Option<Error>)
      requires table !in db && rest in db && table != rest
      modifies this`db
      ensures failed ==
        if Attached(old(db)[table := NewParent(session)], rest) then Some(AlreadyAttached)
        else if !Copyable(old(db)[rest].settings, Created(session.creator, session.defaults)) then Some(UndefinedTable)
        else None
      ensures failed.None? ==> db == old(db)[table := ParentOver(session, old(db)[rest].settings, rest)]
    {
      CreateParent(table);
      failed := AttachDefault(table, rest);
      if failed.Some? { return; }
      failed := CopyAccess(rest, table);
    }

    /** `_partition_one`. */
    method PartitionOne(table: string) returns (failed: Option<Error>)
      requires WellFormed(db)
      modifies this`db
      ensures Partitioned(old(db), session, table) == if failed.None? then Ok(db) else Err(failed.value)
      ensures table in old(db) && old(db)[table].Plain? ==>
        failed ==
          if table + "_default" in old(db) then Some(Unfinished)
          else if table in session.busy then Some(LockTimeout)
          else if exists n :: n in old(db) && old(db)[n].Parent? && table in old(db)[n].parts then Some(AlreadyAttached)
          else if exists p :: p in old(db)[table].settings.policies && old(db)[table].settings.policies[p].correlated
          then Some(UndefinedTable)
          else None
      ensures failed.None? && table in old(db) && old(db)[table].Plain? ==> ConvertedInto(old(db), db, table)
      ensures failed.None? && !(table in old(db) && old(db)[table].Plain?) ==> db == old(db)
    {
      var rest := DefaultOf(table);
      if table !in db { return None; }
      if db[table].Parent? { return None; }
      if rest in db { return Some(Unfinished); }
      failed := DropBm25Indexes(table);
      if failed.Some? { return; }
      failed := Rename(table, rest);
      if failed.Some? { return; }
      RenamedAway(old(db), table, rest, session);
      failed := CreateOver(table, rest);
      assert failed.None? ==> db == old(db)[rest := WithoutBm25(old(db)[table])][table := db[table]];
    }

    method Detach(parent: string, part: string) returns (failed: Option<Error>)
      requires AttachedTo(db, parent, part)
      modifies this`db
      ensures failed == if session.busy !! {parent, part} then None else Some(LockTimeout)
      ensures db == if failed.None? then Detached(old(db), parent, part) else old(db)
    {
      if parent in session.busy || part in session.busy { return Some(LockTimeout); }
      db := db[parent := db[parent].(parts := db[parent].parts - {part})];
      failed := None;
    }

    /** INSERT INTO `target` SELECT * FROM `source`. */
    method InsertFrom(target: string, source: string) returns (failed: Option<Error>)
      requires target in db && db[target].Plain? && source in db && db[source].Plain?
      modifies this`db
      ensures failed.None? <==> session.busy !! {target, source} && CanInsert(old(db), target, source)
      ensures failed != Some(NoDefaultPartition)
      ensures db == if failed.None? then Inserted(old(db), target, source) else old(db)
    {
      if target in session.busy || source in session.busy { return Some(LockTimeout); }
      if row :| row in db[source].rows && !Admissible(db, target, row) {
        assert row in LeafRows(db, source);
        return Some(CheckViolation);
      }
      assert forall row :: row in LeafRows(db, source) ==> row in db[source].rows && Admissible(db, target, row);
      if !(Ids(LeafRows(db, source)) !! Ids(LeafRows(db, target))) { return Some(UniqueViolation); }
      db := db[target := db[target].(rows := db[target].rows + db[source].rows)];
      failed := None;
    }

    method Drop(name: string) returns (failed: Option<Error>)
      requires name in db
      modifies this`db
      ensures failed == if name in session.busy then Some(LockTimeout) else None
      ensures db == if failed.None? then Dropped(old(db), name) else old(db)
    {
      if name in session.busy { return Some(LockTimeout); }
      db := Dropped(db, name);
      failed := None;
    }

    /** One turn of the loop of `_unpartition_one`. */
    method FoldOne(table: string, rest: string, partition: string) returns (failed: Option<Error>)
      requires WellFormed(db) && AttachedTo(db, table, partition) && AttachedTo(db, table, rest) && rest != partition
      requires rest in db && db[rest].Plain? && partition in db && db[partition].Plain?
      modifies this`db
      ensures failed.None? <==>
        session.busy !! {table, rest, partition} && CanInsert(Detached(old(db), table, partition), rest, partition)
      ensures failed.None? ==> WellFormed(db) && db == FoldedOne(old(db), table, rest, partition)
      ensures failed != Some(NoDefaultPartition)
    {
      SameInsert(db, table, rest, partition);
      FoldTurn(db, table, rest, partition);
      failed := DropBm25Indexes(partition);
      if failed.Some? { return; }
      failed := Detach(table, partition);
      if failed.Some? { return; }
      failed := InsertFrom(rest, partition);
      if failed.Some? { return; }
      failed := Drop(partition);
    }

    /** One turn, against the state in which the loop began. */
    method FoldNext(table: string, rest: string, partition: string, ghost start: Db, ghost done: set<string>)
      returns (failed: Option<Error>)
      requires WellFormed(start) && FoldingFrom(start, table) && rest == DefaultOf(table)
      requires rest in start && start[rest].Plain?
      requires done <= start[table].parts.Keys - {rest}
      requires partition in start[table].parts && partition !in done && partition != rest
      requires Folding(db, start, session, table, done)
      modifies this`db
      ensures failed != Some(NoDefaultPartition)
      ensures
        if failed.Some? then !Foldable(start, session, table)
        else Folding(db, start, session, table, done + {partition})
    {
      FoldAdvances(start, table, done, partition);
      assert Routed(start, start[table].parts);
      assert AttachedTo(db, table, partition) && AttachedTo(db, table, rest);
      failed := FoldOne(table, rest, partition);
      if failed.None? {
        FoldGoesOn(start, session, table, done, partition);
      } else {
        FoldStops(start, session, table, done, partition);
      }
    }

    /** The loop of `_unpartition_one`, in any order. */
    method FoldEach(table: string, rest: string, ghost start: Db) returns (failed: Option<Error>)
      requires WellFormed(start) && FoldingFrom(start, table) && rest == DefaultOf(table)
      requires rest in start && start[rest].Plain?
      requires Folding(db, start, session, table, {})
      modifies this`db
      ensures
        if failed.None? then Folding(db, start, session, table, start[table].parts.Keys - {rest})
        else !Foldable(start, session, table)
      ensures failed != Some(NoDefaultPartition)
    {
      failed := None;
      var todo := db[table].parts.Keys - {rest};
      ghost var done: set<string> := {};
      while todo != {}
        invariant done + todo == start[table].parts.Keys - {rest} && done !! todo
        invariant Folding(db, start, session, table, done)
        decreases todo
      {
        var partition :| partition in todo;
        failed := FoldNext(table, rest, partition, start, done);
        if failed.Some? { return; }
        todo, done := todo - {partition}, done + {partition};
      }
      assert done == start[table].parts.Keys - {rest};
      failed := None;
    }

    /** The statements of `_unpartition_one` after the loop. */
    method KeepDefault(table: string, rest: string) returns (failed: Option<Error>)
      requires AttachedTo(db, table, rest) && rest in db && rest != table
      modifies this`db
      ensures failed == if session.busy !! {table, rest} then None else Some(LockTimeout)
      ensures failed.None? ==>
        var left := Dropped(Detached(old(db), table, rest), table);
        rest in left && db == Renamed(left, rest, table)
    {
      failed := Detach(table, rest);
      if failed.Some? { return; }
      failed := Drop(table);
      if failed.Some? { return; }
      failed := Rename(rest, table);
    }

    /** The default partition without its bm25 indexes, then the loop. */
    method FoldRows(table: string, rest: string) returns (failed: Option<Error>)
      requires WellFormed(db) && FoldingFrom(db, table) && rest == DefaultOf(table)
      modifies this`db
      ensures old(rest in db && db[rest].Plain?)
      ensures
        var others := old(db)[table].parts.Keys - {rest};
        if failed.None? then
          db == FoldedSoFar(old(db), table, others) && FoldsSoFar(old(db), session, table, others)
        else !Foldable(old(db), session, table)
      ensures failed != Some(NoDefaultPartition)
    {
      FoldStarts(db, table);
      UnindexKeepsRouting(db, rest);
      failed := DropBm25Indexes(rest);
      if failed.Some? { return; }
      failed := FoldEach(table, rest, old(db));
    }

    /** `_unpartition_one`. */
    method UnpartitionOne(table: string) returns (failed: Option<Error>)
      requires WellFormed(db)
      modifies this`db
      ensures Folded(old(db), session, table) == if failed.None? then Some(db) else None
      ensures failed == Some(NoDefaultPartition) <==>
        table in old(db) && old(db)[table].Parent? && table + "_default" !in old(db)[table].parts
      ensures failed.None? && table in old(db) && old(db)[table].Parent? ==> OneTableOf(old(db), db, table)
    {
      var rest := DefaultOf(table);
      if table !in db { return None; }
      if db[table].Plain? { return None; }
      if rest !in db[table].parts { return Some(NoDefaultPartition); }
      failed := FoldRows(table, rest);
      if failed.Some? { return; }
      FoldEnds(old(db), table, old(db)[table].parts.Keys - {rest});
      FoldVerdict(old(db), session, table);
      failed := KeepDefault(table, rest);
      if failed.None? { FoldGivesOneTable(old(db), session, table); }
    }

    /** `partition_item_tables`: the setting is put back unless a step raises. */
    method PartitionItemTables(tables: seq<string>) returns (failed: Option<Error>)
      requires WellFormed(db)
      modifies this`db, this`lockTimeout
      ensures PartitionedAll(old(db), session, tables) == if failed.None? then Ok(db) else Err(failed.value)
      ensures lockTimeout == if failed.None? then old(lockTimeout) else "10000ms"
    {
      var previous := lockTimeout;
      lockTimeout := LOCK_TIMEOUT;
      for i := 0 to |tables|
        invariant WellFormed(db) && lockTimeout == LOCK_TIMEOUT
        invariant PartitionedAll(old(db), session, tables) == PartitionedAll(db, session, tables[i..])
      {
        ghost var before := db;
        failed := PartitionOne(tables[i]);
        assert tables[i..][1..] == tables[i + 1..];
        if failed.Some? { return; }
        PartitionKeepsRouting(before, session, tables[i]);
      }
      lockTimeout := previous;
      failed := None;
    }

    /** `unpartition_item_tables`. */
    method UnpartitionItemTables(tables: seq<string>) returns (failed: Option<Error>)
      requires WellFormed(db)
      modifies this`db, this`lockTimeout
      ensures FoldedAll(old(db), session, tables) == if failed.None? then Some(db) else None
      ensures lockTimeout == if failed.None? then old(lockTimeout) else "10000ms"
    {
      var previous := lockTimeout;
      lockTimeout := LOCK_TIMEOUT;
      for i := 0 to |tables|
        invariant WellFormed(db) && lockTimeout == LOCK_TIMEOUT
        invariant FoldedAll(old(db), session, tables) == FoldedAll(db, session, tables[i..])
      {
        ghost var before := db;
        failed := UnpartitionOne(tables[i]);
        assert tables[i..][1..] == tables[i + 1..];
        if failed.Some? { return; }
        FoldKeepsRouting(before, session, tables[i]);
      }
      lockTimeout := previous;
      failed := None;
    }

    /** `upgrade` in its transaction: every table is converted, or nothing changed. */
    method Upgrade() returns (failed: Option<Error>)
      requires WellFormed(db)
      modifies this`db, this`lockTimeout
      ensures lockTimeout == old(lockTimeout)
      ensures
        match PartitionedAll(old(db), session, ITEM_TABLES)
        case Ok(next) => failed.None? && db == next
        case Err(error) => failed == Some(error) && db == old(db)
      ensures failed.None? ==>
        forall t :: t in ["chunks", "full_documents", "graph_index_nodes"] && t in old(db) && old(db)[t].Plain? ==>
          ConvertedInto(old(db), db, t)
    {
      var savedDb, savedTimeout := db, lockTimeout;
      failed := PartitionItemTables(ITEM_TABLES);
      if failed.None? {
        ItemTablesIndependent();
        forall t | t in ITEM_TABLES && t in old(db) && old(db)[t].Plain? ensures ConvertedInto(old(db), db, t) {
          EveryTableConverts(old(db), session, ITEM_TABLES, t);
        }
      }
      if failed.Some? { db, lockTimeout := savedDb, savedTimeout; }
    }

    /** `downgrade` in its transaction. */
    method Downgrade() returns (failed: Option<Error>)
      requires WellFormed(db)
      modifies this`db, this`lockTimeout
      ensures lockTimeout == old(lockTimeout)
      ensures
        match FoldedAll(old(db), session, ITEM_TABLES)
        case Some(next) => failed.None? && db == next
        case None => failed.Some? && db == old(db)
    {
      var savedDb, savedTimeout := db, lockTimeout;
      failed := UnpartitionItemTables(ITEM_TABLES);
      if failed.Some? { db, lockTimeout := savedDb, savedTimeout; }
    }
  }
}
