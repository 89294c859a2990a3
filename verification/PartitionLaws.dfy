/** What partitioning and folding keep, undo and may lose. */
module PartitionLaws {
  import opened Options
  import opened Partitioning
  import opened RowSecurity

  // ---- one table ----------------------------------------------------------------------

  /** The conversion moves no row: every name but the new default partition's ranges over what it did. */
  lemma PartitionKeepsRows(db: Db, s: Session, table: string, name: string)
    requires WellFormed(db) && Partitioned(db, s, table).Ok?
    requires name != DefaultOf(table) || Partitioned(db, s, table).value == db
    ensures Rows(Partitioned(db, s, table).value, name) == Rows(db, name)
    ensures name != table ==>
      var next := Partitioned(db, s, table).value;
      (name in next <==> name in db) && (name in db ==> next[name] == db[name])
  {
    var next := Partitioned(db, s, table).value;
    if next != db {
      var rest := DefaultOf(table);
      NotAttachedIfMissing(db, rest);
      if name in db && db[name].Parent? {
        assert Routed(db, db[name].parts);
        assert !AttachedTo(db, name, table) && !AttachedTo(db, name, rest);
        forall p | p in db[name].parts ensures LeafRows(next, p) == LeafRows(db, p) {
          assert AttachedTo(db, name, p);
        }
      } else if name == table {
        assert next[table].parts.Keys == {rest};
        assert forall row :: row in db[table].rows <==> row in LeafRows(next, rest);
      }
    }
  }

  /** The rows a command of a subject reaches through a name. */
  ghost function Reachable(db: Db, subject: Subject, c: Privilege, column: string,
                           meaning: Meaning, name: string): set<Row>
    requires name in db
  {
    set row | row in Rows(db, name) && Allows(subject, db[name].settings, c, column, false, row, meaning)
  }

  ghost predicate SameReach(db: Db, next: Db, name: string)
    requires name in db && name in next
  {
    forall subject: Subject, c, column, meaning :: subject.roles != {} ==>
      Reachable(db, subject, c, column, meaning, name) == Reachable(next, subject, c, column, meaning, name)
  }

  /**
   With faithful settings, nobody reaches other rows through the table's name than before, and
   the guard is exact for access as such.
   */
  lemma PartitionKeepsAccess(db: Db, s: Session, table: string)
    requires WellFormed(db) && table in db && db[table].Plain? && Partitioned(db, s, table).Ok?
    ensures
      var next := Partitioned(db, s, table).value;
      && table in next
      && (SameAccess(db[table].settings, next[table].settings) <==> Faithful(db[table].settings, s.creator, s.defaults))
      && (Faithful(db[table].settings, s.creator, s.defaults) ==> SameReach(db, next, table))
  {
    AccessKeptExactly(db[table].settings, s.creator, s.defaults);
    PartitionKeepsRows(db, s, table, table);
  }

  lemma PartitionIdempotent(db: Db, s: Session, table: string)
    requires Partitioned(db, s, table).Ok?
    ensures Partitioned(Partitioned(db, s, table).value, s, table) == Partitioned(db, s, table)
  {
  }

  lemma FitsOneOnly(parts: map<string, Bound>, p: string, q: string, row: Row)
    requires BoundsApart(parts) && p in parts && q in parts && p != q && Fits(parts, p, row)
    ensures !Fits(parts, q, row)
  {
  }

  /** A row is in one partition only: the union that a fold makes counts every row once. */
  lemma PartitionsDisjoint(db: Db, table: string, p: string, q: string)
    requires WellFormed(db) && AttachedTo(db, table, p) && AttachedTo(db, table, q) && p != q
    ensures LeafRows(db, p) !! LeafRows(db, q)
  {
    assert Routed(db, db[table].parts);
    forall row | row in LeafRows(db, p) ensures row !in LeafRows(db, q) {
      FitsOneOnly(db[table].parts, p, q, row);
    }
  }

  /** A fold keeps the rows, gives them one primary key, and touches no relation but its own. */
  lemma FoldKeepsRows(db: Db, s: Session, table: string, name: string)
    requires WellFormed(db) && table in db && db[table].Parent? && Folded(db, s, table).Some?
    requires name !in db[table].parts
    ensures
      var next := Folded(db, s, table).value;
      && Rows(next, name) == Rows(db, name)
      && Keyed(Rows(next, table))
      && (name != table ==> (name in next <==> name in db) && (name in db ==> next[name] == db[name]))
  {
    var next := Folded(db, s, table).value;
    FoldKeepsRouting(db, s, table);
    if name in db && db[name].Parent? && name != table {
      forall p | p in db[name].parts ensures LeafRows(next, p) == LeafRows(db, p) {
        assert AttachedTo(db, name, p);
        assert AttachedTo(db, table, p) ==> name == table;
        assert Routed(db, db[name].parts);
      }
    }
  }

  /**
   When nobody else holds the relations and `<table>_default` is the partition for the rest, the
   fold succeeds exactly if no two partitions hold the same id.
   */
  lemma FoldSucceedsExactly(db: Db, s: Session, table: string)
    requires WellFormed(db) && FoldingFrom(db, table) && db[table].parts[DefaultOf(table)].Otherwise?
    requires s.busy !! db[table].parts.Keys + {table}
    ensures Folded(db, s, table).Some? <==> Keyed(Rows(db, table))
  {
    assert Routed(db, db[table].parts);
    KeyedExactly(db, table);
  }

  /** The rows of a parent are keyed as a whole exactly if no two partitions share an id. */
  lemma KeyedExactly(db: Db, table: string)
    requires WellFormed(db) && table in db && db[table].Parent?
    ensures IdsApart(db, db[table].parts.Keys) <==> Keyed(Rows(db, table))
  {
    var parts := db[table].parts;
    assert Routed(db, parts);
    if IdsApart(db, parts.Keys) {
      UnionKeyed(db, parts.Keys);
    } else {
      var p, q :| p in parts && q in parts && p != q && !(Ids(LeafRows(db, p)) !! Ids(LeafRows(db, q)));
      SharedIdNotKeyed(db, table, p, q);
    }
  }

  lemma SharedIdNotKeyed(db: Db, table: string, p: string, q: string)
    requires WellFormed(db) && AttachedTo(db, table, p) && AttachedTo(db, table, q) && p != q
    requires !(Ids(LeafRows(db, p)) !! Ids(LeafRows(db, q)))
    ensures !Keyed(Rows(db, table))
  {
    var i :| i in Ids(LeafRows(db, p)) && i in Ids(LeafRows(db, q));
    var a :| a in LeafRows(db, p) && a.id == i;
    var b :| b in LeafRows(db, q) && b.id == i;
    PartitionsDisjoint(db, table, p, q);
    assert a in Rows(db, table) && b in Rows(db, table) && a != b;
  }

  /** A parent nobody keys as a whole: one id is stored under two knowledge bases. */
  function SharedId(settings: Settings, rest: string, other: string): Db {
    map[
      "chunks" := Parent(settings, map[rest := Otherwise, other := Listed({"b"})]),
      rest := Plain(settings, {Row(1, "a", "")}, {}),
      other := Plain(settings, {Row(1, "b", "")}, {})]
  }

  lemma SharedIdWellFormed(settings: Settings, rest: string, other: string)
    requires rest != other && rest != "chunks" && other != "chunks"
    ensures WellFormed(SharedId(settings, rest, other))
  {
    var db := SharedId(settings, rest, other);
    var parts := map[rest := Otherwise, other := Listed({"b"})];
    assert db["chunks"].parts == parts;
    assert Fits(parts, rest, Row(1, "a", "")) && Fits(parts, other, Row(1, "b", ""));
    assert Routed(db, parts);
    forall m, p | AttachedTo(db, m, p) ensures m == "chunks" {}
  }

  /** The routing invariant does not prevent it, and then there is no way back. */
  lemma SharedIdBlocksFold(s: Session, settings: Settings, other: string)
    requires other != DefaultOf("chunks") && other != "chunks"
    ensures WellFormed(SharedId(settings, DefaultOf("chunks"), other))
    ensures Folded(SharedId(settings, DefaultOf("chunks"), other), s, "chunks").None?
  {
    var rest := DefaultOf("chunks");
    SharedIdWellFormed(settings, rest, other);
    var db := SharedId(settings, rest, other);
    assert Row(1, "a", "") in LeafRows(db, rest) && Row(1, "b", "") in LeafRows(db, other);
    assert 1 in Ids(LeafRows(db, rest)) && 1 in Ids(LeafRows(db, other));
    assert !(Ids(LeafRows(db, rest)) !! Ids(LeafRows(db, other)));
  }

  /** Undoing the conversion gives back the table, its bm25 indexes aside. */
  lemma FoldUndoesPartition(db: Db, s: Session, table: string)
    requires WellFormed(db) && table in db && db[table].Plain? && Partitioned(db, s, table).Ok?
    requires DefaultOf(table) !in s.busy
    ensures Folded(Partitioned(db, s, table).value, s, table) == Some(Unindexed(db, table))
  {
    var next := Partitioned(db, s, table).value;
    var rest := DefaultOf(table);
    PartitionKeepsRows(db, s, table, table);
    assert next[table].parts.Keys == {rest};
    assert FoldedInto(next, table) == Unindexed(db, table);
  }

  // ---- the list of tables -------------------------------------------------------------

  /** Converting one table neither helps nor hinders another one. */
  lemma OthersStayConvertible(db: Db, s: Session, t: string, u: string)
    requires WellFormed(db) && Partitioned(db, s, t).Ok? && t != u && u != DefaultOf(t) && t != DefaultOf(u)
    ensures Partitioned(Partitioned(db, s, t).value, s, u).Ok? <==> Partitioned(db, s, u).Ok?
  {
    var next := Partitioned(db, s, t).value;
    if next != db {
      if DefaultOf(u) == DefaultOf(t) { DefaultsDiffer(u, t); }
      assert forall n :: AttachedTo(next, n, u) ==> AttachedTo(db, n, u);
      assert forall n :: AttachedTo(db, n, u) ==> AttachedTo(next, n, u);
    }
  }

  predicate IsDefault(tables: seq<string>, n: string) {
    exists t :: t in tables && n == DefaultOf(t)
  }

  /** A list of conversions moves no row either. */
  lemma {:induction false} UpgradeKeepsRows(db: Db, s: Session, tables: seq<string>, name: string)
    requires WellFormed(db) && PartitionedAll(db, s, tables).Ok? && !IsDefault(tables, name)
    ensures
      var next := PartitionedAll(db, s, tables).value;
      && Rows(next, name) == Rows(db, name)
      && (name in next <==> name in db)
      && (name in db && name !in tables ==> next[name] == db[name])
      && (name in db && (name in tables || db[name].Parent?) ==> next[name].Parent?)
    decreases |tables|
  {
    if tables != [] {
      var next := Partitioned(db, s, tables[0]).value;
      PartitionKeepsRouting(db, s, tables[0]);
      PartitionKeepsRows(db, s, tables[0], name);
      assert forall t :: t in tables[1..] ==> t in tables;
      UpgradeKeepsRows(next, s, tables[1..], name);
      assert name in tables ==> name == tables[0] || name in tables[1..];
    }
  }

  /** The whole list is converted exactly if every table of it could be converted on its own. */
  lemma {:induction false} UpgradeExactly(db: Db, s: Session, tables: seq<string>)
    requires WellFormed(db) && Independent(tables)
    ensures PartitionedAll(db, s, tables).Ok? <==> forall t :: t in tables ==> Partitioned(db, s, t).Ok?
    decreases |tables|
  {
    if tables != [] && Partitioned(db, s, tables[0]).Ok? {
      var t, rest := tables[0], tables[1..];
      var next := Partitioned(db, s, t).value;
      PartitionKeepsRouting(db, s, t);
      UpgradeExactly(next, s, rest);
      forall u | u in rest ensures Partitioned(next, s, u).Ok? <==> Partitioned(db, s, u).Ok? {
        OthersStayConvertible(db, s, t, u);
      }
      assert forall u :: u in tables <==> u == t || u in rest;
    }
  }

  // ---- the way back -------------------------------------------------------------------

  /** A parent whose only partition is the default one, as the conversion leaves it. */
  predicate JustConverted(db: Db, t: string) {
    && t in db && db[t].Parent? && db[t].parts == map[DefaultOf(t) := Otherwise]
    && DefaultOf(t) in db && db[DefaultOf(t)].Plain?
  }

  lemma FoldJustConverted(db: Db, s: Session, t: string)
    requires JustConverted(db, t) && t !in s.busy && DefaultOf(t) !in s.busy
    ensures Folded(db, s, t) == Some(FoldedInto(db, t))
    ensures FoldedInto(db, t) == (db - {DefaultOf(t)})[t := Plain(db[DefaultOf(t)].settings, db[DefaultOf(t)].rows, {})]
  {
    var rest := DefaultOf(t);
    assert db[t].parts.Keys == {rest};
    assert forall row :: row in RowsIn(db, {rest}) <==> row in LeafRows(db, rest);
    assert RowsIn(db, {rest}) == db[rest].rows;
  }

  predicate Unrelated(t: string, u: string) {
    t != u && t != DefaultOf(u) && u != DefaultOf(t)
  }

  lemma StaysConverted(db: Db, s: Session, t: string, u: string)
    requires JustConverted(db, t) && Unrelated(t, u) && Partitioned(db, s, u).Ok?
    ensures
      var next := Partitioned(db, s, u).value;
      JustConverted(next, t) && next[t] == db[t] && next[DefaultOf(t)] == db[DefaultOf(t)]
  {
    if DefaultOf(u) == DefaultOf(t) { DefaultsDiffer(u, t); }
  }

  lemma FoldKeepsAttachment(db: Db, s: Session, t: string, u: string)
    requires JustConverted(db, t) && Unrelated(t, u) && t !in s.busy && DefaultOf(t) !in s.busy
    requires !Attached(db, u)
    ensures !Attached(FoldedInto(db, t), u)
  {
    FoldJustConverted(db, s, t);
    var folded := FoldedInto(db, t);
    forall n | n in folded ensures !AttachedTo(folded, n, u) {
      assert n in db && !AttachedTo(db, n, u);
    }
  }

  lemma UpdatesCommute(db: Db, t: string, dt: string, plain: Relation,
                       u: string, du: string, rest: Relation, parent: Relation)
    requires t != dt && u != t && u != dt && du != t && du != dt
    ensures (db - {dt})[t := plain][du := rest][u := parent] == (db[du := rest][u := parent] - {dt})[t := plain]
  {
  }

  /** Folding one table commutes with converting another. */
  lemma FoldCommutes(db: Db, s: Session, t: string, u: string)
    requires JustConverted(db, t) && Unrelated(t, u) && Partitioned(db, s, u).Ok?
    requires t !in s.busy && DefaultOf(t) !in s.busy
    ensures
      var next := Partitioned(db, s, u).value;
      && JustConverted(next, t)
      && Partitioned(FoldedInto(db, t), s, u) == Ok(FoldedInto(next, t))
  {
    var next := Partitioned(db, s, u).value;
    var dt, du := DefaultOf(t), DefaultOf(u);
    if du == dt { DefaultsDiffer(u, t); }
    StaysConverted(db, s, t, u);
    FoldJustConverted(db, s, t);
    FoldJustConverted(next, s, t);
    var plain := Plain(db[dt].settings, db[dt].rows, {});
    var folded := FoldedInto(db, t);
    assert folded == (db - {dt})[t := plain] && FoldedInto(next, t) == (next - {dt})[t := plain];
    if u in db && db[u].Plain? {
      FoldKeepsAttachment(db, s, t, u);
      UpdatesCommute(db, t, dt, plain, u, du, WithoutBm25(db[u]), ParentOver(s, db[u].settings, du));
    }
  }

  lemma {:induction false} FoldCommutesAll(db: Db, s: Session, t: string, tables: seq<string>)
    requires JustConverted(db, t) && PartitionedAll(db, s, tables).Ok?
    requires forall u :: u in tables ==> Unrelated(t, u)
    requires t !in s.busy && DefaultOf(t) !in s.busy
    ensures
      var next := PartitionedAll(db, s, tables).value;
      && JustConverted(next, t)
      && PartitionedAll(FoldedInto(db, t), s, tables) == Ok(FoldedInto(next, t))
    decreases |tables|
  {
    if tables != [] {
      FoldCommutes(db, s, t, tables[0]);
      FoldCommutesAll(Partitioned(db, s, tables[0]).value, s, t, tables[1..]);
    }
  }

  function UnindexedAll(db: Db, tables: seq<string>): Db {
    map n | n in db :: if n in tables then WithoutBm25(db[n]) else db[n]
  }

  /**
   Downgrading after an upgrade gives back the database, bm25 indexes of the converted tables
   aside, whichever of the tables existed.
   */
  lemma {:induction false} DowngradeUndoesUpgrade(db: Db, s: Session, tables: seq<string>)
    requires WellFormed(db) && Independent(tables) && PartitionedAll(db, s, tables).Ok?
    requires forall t :: t in tables && t in db ==> db[t].Plain?
    requires forall t :: t in tables ==> DefaultOf(t) !in s.busy
    ensures FoldedAll(PartitionedAll(db, s, tables).value, s, tables) == Some(UnindexedAll(db, tables))
    decreases |tables|
  {
    if tables == [] {
      assert UnindexedAll(db, tables) == db;
    } else {
      var t, rest := tables[0], tables[1..];
      assert tables == [t] + rest;
      UndoFirst(db, s, t, rest);
      UnindexKeepsRouting(db, t);
      DowngradeUndoesUpgrade(Unindexed(db, t), s, rest);
      assert UnindexedAll(Unindexed(db, t), rest) == UnindexedAll(db, tables);
    }
  }

  /** Folding the first table of the list leaves what converting only the others would have. */
  lemma UndoFirst(db: Db, s: Session, t: string, rest: seq<string>)
    requires WellFormed(db) && Independent([t] + rest) && PartitionedAll(db, s, [t] + rest).Ok?
    requires t in db ==> db[t].Plain?
    requires DefaultOf(t) !in s.busy
    ensures
      var last := PartitionedAll(db, s, [t] + rest).value;
      && PartitionedAll(Unindexed(db, t), s, rest).Ok?
      && Folded(last, s, t) == Some(PartitionedAll(Unindexed(db, t), s, rest).value)
  {
    var tables := [t] + rest;
    assert tables[1..] == rest;
    var next := Partitioned(db, s, t).value;
    forall u | u in rest ensures Unrelated(t, u) && !IsDefault(rest, t) {
      var i :| 0 <= i < |rest| && rest[i] == u;
      assert tables[0] == t && tables[i + 1] == u;
      assert forall j :: 0 <= j < |rest| ==> tables[j + 1] == rest[j];
    }
    if t in db {
      assert JustConverted(next, t);
      FoldCommutesAll(next, s, t, rest);
      FoldJustConverted(PartitionedAll(next, s, rest).value, s, t);
      FoldJustConverted(next, s, t);
      FoldUndoesPartition(db, s, t);
    } else if rest != [] {
      UpgradeKeepsRows(db, s, rest, t);
    }
  }
}
