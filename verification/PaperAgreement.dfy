/** When the positions in memory and the OPEN rows of a table agree, and what inserting, closing and
  loading rows does to that, statements carried along from earlier raised commits included.
 */
module PaperAgreement {
  import opened Basics
  import opened SimSpec
  import opened PaperSpec

  // ---------------------------------------------------------------- agreement

  /** A position as its row shows it: funding is kept in memory only. */
  function Base(p: Position): Position { p.(fundingPaid := 0.0) }

  function Recovered(m: Memory): Memory {
    map x | x in m :: Base(m[x])
  }

  ghost predicate HasOpenRow(db: Rows, x: string, p: Position) {
    p.symbol == x && IdOf(p) in db && db[IdOf(p)] == Row(Base(p), None)
  }

  ghost predicate RowShown(m: Memory, id: Id, row: Row) {
    IdOf(row.pos) == id && (row.exit.None? ==> id.symbol in m && IdOf(m[id.symbol]) == id)
  }

  /** Memory is exactly the OPEN rows: every position has its row, every OPEN row its position, so
      there is at most one OPEN row per symbol. */
  ghost predicate Agree(m: Memory, db: Rows) {
    && (forall x :: x in m ==> HasOpenRow(db, x, m[x]))
    && (forall id :: id in db ==> RowShown(m, id, db[id]))
  }

  lemma FundingAgrees(m: Memory, db: Rows, x: string, rate: real, times: int)
    requires Agree(m, db) && x in m
    ensures Agree(m[x := Paid(m[x], rate, times)], db)
  {
    var m' := m[x := Paid(m[x], rate, times)];
    assert HasOpenRow(db, x, m[x]);
    forall y | y in m' ensures HasOpenRow(db, y, m'[y]) {
      if y != x { assert HasOpenRow(db, y, m[y]); }
    }
    forall id | id in db ensures RowShown(m', id, db[id]) {
      assert RowShown(m, id, db[id]);
    }
  }

  // ---------------------------------------------------------------- loading

  /** The part of memory that a listing of rows brings back. */
  function Listed(m: Memory, order: seq<Id>): Memory {
    map x | x in m && IdOf(m[x]) in order :: Base(m[x])
  }

  lemma {:induction false} LoadIsListed(m: Memory, db: Rows, order: seq<Id>)
    requires Agree(m, db)
    ensures Load(db, order) == Listed(m, order)
  {
    if |order| > 0 {
      var n := |order| - 1;
      LoadIsListed(m, db, order[..n]);
      LoadOne(m, db, order[..n], order[n]);
      assert order[..n] + [order[n]] == order;
    }
  }

  lemma LoadOne(m: Memory, db: Rows, before: seq<Id>, id: Id)
    requires Agree(m, db)
    ensures Listed(m, before + [id]) ==
            if id in db && db[id].exit.None? then Listed(m, before)[db[id].pos.symbol := db[id].pos]
            else Listed(m, before)
  {
    forall x | x in m ensures HasOpenRow(db, x, m[x]) {}
    if id in db {
      assert RowShown(m, id, db[id]);
    }
    assert forall x :: x in m ==> (IdOf(m[x]) in before + [id] <==> IdOf(m[x]) in before || IdOf(m[x]) == id);
  }

  /** The listing has every OPEN row. */
  ghost predicate Lists(order: seq<Id>, db: Rows) {
    forall id :: id in db && db[id].exit.None? ==> id in order
  }

  /** Startup rebuilds memory from the rows, whatever their order. */
  lemma LoadRecovers(m: Memory, db: Rows, order: seq<Id>)
    requires Agree(m, db) && Lists(order, db)
    ensures Load(db, order) == Recovered(m)
  {
    LoadIsListed(m, db, order);
    forall x | x in m ensures IdOf(m[x]) in order {
      assert HasOpenRow(db, x, m[x]);
    }
  }

  lemma RecoveredAgrees(m: Memory, db: Rows)
    requires Agree(m, db)
    ensures Agree(Recovered(m), db) && |Recovered(m)| == |m|
  {
    var r := Recovered(m);
    assert r.Keys == m.Keys;
    forall x | x in r ensures HasOpenRow(db, x, r[x]) { assert HasOpenRow(db, x, m[x]); }
    forall id | id in db ensures RowShown(r, id, db[id]) { assert RowShown(m, id, db[id]); }
  }

  /** Loading a listing agrees exactly if it has every OPEN row. */
  lemma ListedAgrees(m: Memory, db: Rows, order: seq<Id>)
    requires Agree(m, db)
    ensures Agree(Load(db, order), db) <==> Lists(order, db)
  {
    var loaded := Listed(m, order);
    LoadIsListed(m, db, order);
    forall x | x in loaded ensures HasOpenRow(db, x, loaded[x]) { assert HasOpenRow(db, x, m[x]); }
    forall id | id in db ensures RowShown(loaded, id, db[id]) <==> (db[id].exit.None? ==> id in order) {
      assert RowShown(m, id, db[id]);
    }
  }

  /** Recovery loses exactly the funding paid. */
  lemma RecoveryLosesFunding(m: Memory)
    ensures Recovered(m) == m <==> forall x :: x in m ==> m[x].fundingPaid == 0.0
  {
    if forall x :: x in m ==> m[x].fundingPaid == 0.0 {
      assert Recovered(m) == m;
    }
    if Recovered(m) == m {
      forall x | x in m ensures m[x].fundingPaid == 0.0 { assert Recovered(m)[x] == m[x]; }
    }
  }

  // ---------------------------------------------------------------- statements carried along

  /** The table as the connection sees it is ahead of the disk by statements whose commit raised: rows
      inserted and rows closed. */
  ghost predicate Ahead(disk: Rows, db: Rows) {
    && (forall id :: id in disk ==> RowAhead(disk, db, id))
    && (forall id :: id in db && id !in disk ==> db[id].exit.None?)
  }

  ghost predicate RowAhead(disk: Rows, db: Rows, id: Id)
    requires id in disk
  {
    id in db && db[id].pos == disk[id].pos && (disk[id].exit.Some? ==> db[id] == disk[id])
  }

  /** Nothing tells the table from the disk but, at most, the row with this id. */
  ghost predicate OnlyAhead(disk: Rows, db: Rows, id: Id) {
    forall k :: k in db && k != id ==> k in disk && db[k] == disk[k]
  }

  /** A row whose position two memories have alike, or neither, tells whether its table agrees. */
  lemma CarriedRowTells(m: Memory, disk: Rows, db: Rows, m': Memory, rows: Rows, k: Id)
    requires Agree(m, disk) && Ahead(disk, db) && Agree(m', rows)
    requires k in db && k in rows && rows[k] == db[k]
    requires k.symbol in m' && IdOf(m'[k.symbol]) == k ==> k.symbol in m && m[k.symbol] == m'[k.symbol]
    requires k.symbol in m && IdOf(m[k.symbol]) == k ==> k.symbol in m' && m[k.symbol] == m'[k.symbol]
    ensures k in disk && db[k] == disk[k]
  {
    assert RowShown(m', k, rows[k]);
    if db[k].exit.None? {
      assert HasOpenRow(disk, k.symbol, m[k.symbol]) && HasOpenRow(rows, k.symbol, m'[k.symbol]);
    } else {
      assert RowAhead(disk, db, k) && RowShown(m, k, disk[k]);
      if disk[k].exit.None? { assert HasOpenRow(rows, k.symbol, m'[k.symbol]); }
    }
  }

  /** Memory agrees with a table exactly if nothing is ahead of the disk. */
  lemma SameMemoryAgrees(m: Memory, disk: Rows, db: Rows)
    requires Agree(m, disk) && Ahead(disk, db)
    ensures Agree(m, db) <==> db == disk
  {
    if Agree(m, db) {
      forall k | k in db ensures k in disk && db[k] == disk[k] { CarriedRowTells(m, disk, db, m, db, k); }
      forall k | k in disk ensures k in db { assert RowAhead(disk, db, k); }
    }
  }

  /** A committed close agrees exactly if it carries along nothing but, at most, an earlier close of the
      same position. */
  lemma CloseAgrees(m: Memory, disk: Rows, db: Rows, t: Trade)
    requires Agree(m, disk) && Ahead(disk, db) && t.pos.symbol in m && t.pos == m[t.pos.symbol]
    ensures Agree(m - {t.pos.symbol}, CloseRow(db, t)) <==> OnlyAhead(disk, db, IdOf(t.pos))
  {
    var x, id, m', rows := t.pos.symbol, IdOf(t.pos), m - {t.pos.symbol}, CloseRow(db, t);
    assert HasOpenRow(disk, x, m[x]) && RowAhead(disk, db, id);
    if Agree(m', rows) {
      forall k | k in db && k != id ensures k in disk && db[k] == disk[k] {
        CarriedRowTells(m, disk, db, m', rows, k);
      }
    }
    if OnlyAhead(disk, db, id) { CloseKeepsOthers(m, disk, db, t); }
  }

  lemma CloseKeepsOthers(m: Memory, disk: Rows, db: Rows, t: Trade)
    requires Agree(m, disk) && Ahead(disk, db) && t.pos.symbol in m && t.pos == m[t.pos.symbol]
    requires OnlyAhead(disk, db, IdOf(t.pos))
    ensures Agree(m - {t.pos.symbol}, CloseRow(db, t))
  {
    var x, id, m', rows := t.pos.symbol, IdOf(t.pos), m - {t.pos.symbol}, CloseRow(db, t);
    assert HasOpenRow(disk, x, m[x]) && RowAhead(disk, db, id);
    forall y | y in m' ensures HasOpenRow(rows, y, m'[y]) {
      assert HasOpenRow(disk, y, m[y]) && RowAhead(disk, db, IdOf(m[y]));
    }
    forall k | k in rows ensures RowShown(m', k, rows[k]) {
      if k != id { assert RowShown(m, k, disk[k]); }
    }
  }

  /** A committed entry agrees exactly if it carries nothing else along, and an id already in the table is
      that of the same position, stuck before. */
  lemma InsertAgrees(m: Memory, disk: Rows, db: Rows, p: Position)
    requires Agree(m, disk) && Ahead(disk, db) && p.symbol !in m && p == Base(p)
    ensures Agree(m[p.symbol := p], InsertRow(db, p)) <==>
              OnlyAhead(disk, db, IdOf(p)) && (IdOf(p) in db ==> db[IdOf(p)] == Row(p, None))
  {
    var m', rows := m[p.symbol := p], InsertRow(db, p);
    if Agree(m', rows) {
      assert HasOpenRow(rows, p.symbol, m'[p.symbol]);
      forall k | k in db && k != IdOf(p) ensures k in disk && db[k] == disk[k] {
        CarriedRowTells(m, disk, db, m', rows, k);
      }
    }
    if OnlyAhead(disk, db, IdOf(p)) && (IdOf(p) in db ==> db[IdOf(p)] == Row(p, None)) {
      InsertKeepsOthers(m, disk, db, p);
    }
  }

  lemma InsertKeepsOthers(m: Memory, disk: Rows, db: Rows, p: Position)
    requires Agree(m, disk) && Ahead(disk, db) && p.symbol !in m && p == Base(p)
    requires OnlyAhead(disk, db, IdOf(p)) && (IdOf(p) in db ==> db[IdOf(p)] == Row(p, None))
    ensures Agree(m[p.symbol := p], InsertRow(db, p))
  {
    var id, m', rows := IdOf(p), m[p.symbol := p], InsertRow(db, p);
    forall y | y in m' ensures HasOpenRow(rows, y, m'[y]) {
      if y != p.symbol { assert HasOpenRow(disk, y, m[y]) && RowAhead(disk, db, IdOf(m[y])); }
    }
    forall k | k in rows ensures RowShown(m', k, rows[k]) {
      if k != id { assert RowShown(m, k, disk[k]); }
    }
  }
}
