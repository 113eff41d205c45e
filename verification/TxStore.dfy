/** Nested transactions. A call tree stands for the code that runs under the store: which statements it issues,
    where it opens or joins a transaction, and where it swallows an error. */
module TxStore {

  type Row = string

  /** What may go wrong with a transaction of one's own. */
  datatype Fault = Healthy | BeginFails | SettingsFail | CommitFails

  datatype Call =
    | Insert(row: Row, fault: Fault)
    | RefusedStatement(fault: Fault)
    | Fail
    | Done
    | Then(first: Call, second: Call)
    | Swallow(body: Call)
    | WithTx(body: Call, fault: Fault)
    | Run(body: Call, fault: Fault)

  /** An open transaction. After a refused statement the database refuses every later one, and the commit. */
  datatype Tx = Tx(writes: seq<Row>, aborted: bool)

  datatype Context = None | Ambient(tx: Tx)

  datatype Db = Db(table: seq<Row>, tx: Context)

  // ---- what a call does ----

  /** One statement on the ambient transaction. */
  function Statement(db: Db, row: Row, refused: bool): (Db, bool)
    requires db.tx.Ambient?
  {
    var tx := db.tx.tx;
    if refused || tx.aborted then (db.(tx := Ambient(tx.(aborted := true))), false)
    else (db.(tx := Ambient(tx.(writes := tx.writes + [row]))), true)
  }

  /** The end of a transaction of one's own: commit after a success that left it sound, roll back otherwise. */
  function Finished(table: seq<Row>, end: Db, ok: bool, fault: Fault): (Db, bool)
    requires end.tx.Ambient?
  {
    if ok && !end.tx.tx.aborted && !fault.CommitFails? then (Db(table + end.tx.tx.writes, None), true)
    else (Db(table, None), false)
  }

  predicate Starts(fault: Fault) { !fault.BeginFails? && !fault.SettingsFail? }

  function Opened(db: Db): Db { db.(tx := Ambient(Tx([], false))) }

  function Exec(db: Db, c: Call): (r: (Db, bool))
    ensures r.0.tx.Ambient? <==> db.tx.Ambient?
    ensures db.tx.Ambient? ==> r.0.table == db.table
    decreases c
  {
    match c
    case Insert(row, fault) =>
      if db.tx.Ambient? then Statement(db, row, false)
      else if !Starts(fault) then (db, false)
      else var (end, ok) := Statement(Opened(db), row, false); Finished(db.table, end, ok, fault)
    case RefusedStatement(fault) =>
      if db.tx.Ambient? then Statement(db, "", true)
      else if !Starts(fault) then (db, false)
      else var (end, ok) := Statement(Opened(db), "", true); Finished(db.table, end, ok, fault)
    case Fail => (db, false)
    case Done => (db, true)
    case Then(first, second) =>
      var (mid, ok) := Exec(db, first);
      if ok then Exec(mid, second) else (mid, false)
    case Swallow(body) => (Exec(db, body).0, true)
    case WithTx(body, fault) =>
      if db.tx.Ambient? then Exec(db, body)
      else if !Starts(fault) then (db, false)
      else var (end, ok) := Exec(Opened(db), body); Finished(db.table, end, ok, fault)
    case Run(body, fault) =>
      if db.tx.Ambient? then Exec(db, body)
      else if !Starts(fault) then (db, false)
      else var (end, ok) := Exec(Opened(db), body); Finished(db.table, end, ok, fault)
  }

  // ---- flattening ----

  /** The same tree with every nested transaction dropped. */
  function Flat(c: Call): Call {
    match c
    case Then(first, second) => Then(Flat(first), Flat(second))
    case Swallow(body) => Swallow(Flat(body))
    case WithTx(body, _) => Flat(body)
    case Run(body, _) => Flat(body)
    case _ => c
  }

  /** Inside a transaction, opening another changes nothing: neither what is written nor what fails. */
  lemma {:induction false} NestedTransactionsFlatten(db: Db, c: Call)
    requires db.tx.Ambient?
    ensures Exec(db, c) == Exec(db, Flat(c))
    decreases c
  {
    match c
    case Then(first, second) =>
      NestedTransactionsFlatten(db, first);
      NestedTransactionsFlatten(Exec(db, first).0, second);
    case Swallow(body) => NestedTransactionsFlatten(db, body);
    case WithTx(body, _) => NestedTransactionsFlatten(db, body);
    case Run(body, _) => NestedTransactionsFlatten(db, body);
    case _ =>
  }

  // ---- what a transaction does, for every tree ----

  /** The callback code itself reports no error: nothing fails but under a Swallow. */
  predicate Succeeds(c: Call) {
    match c
    case Fail => false
    case RefusedStatement(_) => false
    case Then(first, second) => Succeeds(first) && Succeeds(second)
    case WithTx(body, _) => Succeeds(body)
    case Run(body, _) => Succeeds(body)
    case _ => true
  }

  /** Control reaches a statement that the database refuses, at whatever depth and under whatever swallowing. */
  predicate MeetsRefusal(c: Call) {
    match c
    case RefusedStatement(_) => true
    case Then(first, second) => MeetsRefusal(first) || (Succeeds(first) && MeetsRefusal(second))
    case Swallow(body) => MeetsRefusal(body)
    case WithTx(body, _) => MeetsRefusal(body)
    case Run(body, _) => MeetsRefusal(body)
    case _ => false
  }

  /** The rows inserted before control stops at an error, in order; those of a failed call that is swallowed included. */
  function Inserted(c: Call): seq<Row> {
    match c
    case Insert(row, _) => [row]
    case Then(first, second) => if Succeeds(first) then Inserted(first) + Inserted(second) else Inserted(first)
    case Swallow(body) => Inserted(body)
    case WithTx(body, _) => Inserted(body)
    case Run(body, _) => Inserted(body)
    case _ => []
  }

  /** After a refusal no statement has an effect any more. */
  lemma {:induction false} AbortedStaysAborted(db: Db, c: Call)
    requires db.tx.Ambient? && db.tx.tx.aborted
    ensures Exec(db, c).0 == db
    decreases c
  {
    match c
    case Then(first, second) =>
      AbortedStaysAborted(db, first);
      AbortedStaysAborted(db, second);
    case Swallow(body) => AbortedStaysAborted(db, body);
    case WithTx(body, _) => AbortedStaysAborted(db, body);
    case Run(body, _) => AbortedStaysAborted(db, body);
    case _ =>
  }

  /** Inside a sound transaction every tree either meets a refusal and leaves the transaction aborted, or stages exactly
      the rows it inserted and reports exactly its own errors. */
  lemma {:induction false} InsideTx(db: Db, c: Call)
    requires db.tx.Ambient? && !db.tx.tx.aborted
    ensures Exec(db, c).0.tx.Ambient? && Exec(db, c).0.tx.tx.aborted == MeetsRefusal(c)
    ensures !MeetsRefusal(c) ==> Exec(db, c) == (Db(db.table, Ambient(Tx(db.tx.tx.writes + Inserted(c), false))), Succeeds(c))
    decreases c
  {
    match c
    case Then(first, second) =>
      InsideTx(db, first);
      var mid := Exec(db, first).0;
      if MeetsRefusal(first) {
        AbortedStaysAborted(mid, second);
      } else if Succeeds(first) {
        InsideTx(mid, second);
        assert db.tx.tx.writes + Inserted(first) + Inserted(second) == db.tx.tx.writes + Inserted(c);
      }
    case Swallow(body) => InsideTx(db, body);
    case WithTx(body, _) => InsideTx(db, body);
    case Run(body, _) => InsideTx(db, body);
    case _ => assert db.tx.tx.writes + [] == db.tx.tx.writes;
  }

  /** The outermost transaction of any tree: it commits exactly when it begins, the callback reports no error, no refusal
      was met and the commit goes through; then it adds every row inserted, in order, and otherwise none. */
  lemma CommitsExactlyWhenSound(table: seq<Row>, body: Call, fault: Fault)
    ensures var (end, ok) := Exec(Db(table, None), WithTx(body, fault));
      && (ok <==> fault == Healthy && Succeeds(body) && !MeetsRefusal(body))
      && end == Db(if ok then table + Inserted(body) else table, None)
  {
    InsideTx(Opened(Db(table, None)), body);
    assert [] + Inserted(body) == Inserted(body);
  }

  // ---- what a call does outside any transaction ----

  /** Outside, every statement and every outermost transaction stands for itself: what one of them commits stays, whatever
      fails after it. These are the rows so committed, in order. */
  function Committed(c: Call): seq<Row> {
    match c
    case Insert(row, fault) => if fault == Healthy then [row] else []
    case Then(first, second) => if Reports(first) then Committed(first) + Committed(second) else Committed(first)
    case Swallow(body) => Committed(body)
    case WithTx(body, fault) => if Reports(c) then Inserted(body) else []
    case Run(body, fault) => if Reports(c) then Inserted(body) else []
    case _ => []
  }

  /** Outside any transaction the call reports no error. */
  predicate Reports(c: Call) {
    match c
    case Insert(_, fault) => fault == Healthy
    case RefusedStatement(_) => false
    case Fail => false
    case Done => true
    case Then(first, second) => Reports(first) && Reports(second)
    case Swallow(_) => true
    case WithTx(body, fault) => fault == Healthy && Succeeds(body) && !MeetsRefusal(body)
    case Run(body, fault) => fault == Healthy && Succeeds(body) && !MeetsRefusal(body)
  }

  /** Any tree outside a transaction leaves none open, commits exactly its sound units, and reports exactly their errors. */
  lemma {:induction false} OutsideEveryUnitIsItsOwn(table: seq<Row>, c: Call)
    ensures Exec(Db(table, None), c) == (Db(table + Committed(c), None), Reports(c))
    decreases c
  {
    match c
    case Then(first, second) =>
      OutsideEveryUnitIsItsOwn(table, first);
      OutsideEveryUnitIsItsOwn(table + Committed(first), second);
      assert table + Committed(first) + Committed(second) == table + (Committed(first) + Committed(second));
    case Swallow(body) => OutsideEveryUnitIsItsOwn(table, body);
    case WithTx(body, fault) => OutsideUnit(table, body, fault);
    case Run(body, fault) => OutsideUnit(table, body, fault);
    case _ => assert table + [] == table && forall row :: table + ([] + [row]) == table + [row];
  }

  lemma OutsideUnit(table: seq<Row>, body: Call, fault: Fault)
    ensures Exec(Db(table, None), WithTx(body, fault)) == (Db(table + Committed(WithTx(body, fault)), None), Reports(WithTx(body, fault)))
  {
    CommitsExactlyWhenSound(table, body, fault);
    assert table + [] == table;
    hide Exec, Inserted;
  }

  // ---- when nothing is swallowed ----

  /** Every row the tree inserts when nothing fails, in order. */
  function Writes(c: Call): seq<Row> {
    match c
    case Insert(row, _) => [row]
    case Then(first, second) => Writes(first) + Writes(second)
    case Swallow(body) => Writes(body)
    case WithTx(body, _) => Writes(body)
    case Run(body, _) => Writes(body)
    case _ => []
  }

  /** Nothing in the tree fails. */
  predicate Clean(c: Call) {
    match c
    case RefusedStatement(_) => false
    case Fail => false
    case Then(first, second) => Clean(first) && Clean(second)
    case Swallow(body) => Clean(body)
    case WithTx(body, _) => Clean(body)
    case Run(body, _) => Clean(body)
    case _ => true
  }

  predicate SwallowsNothing(c: Call) {
    match c
    case Then(first, second) => SwallowsNothing(first) && SwallowsNothing(second)
    case Swallow(_) => false
    case WithTx(body, _) => SwallowsNothing(body)
    case Run(body, _) => SwallowsNothing(body)
    case _ => true
  }

  lemma {:induction false} SoundIsClean(c: Call)
    requires SwallowsNothing(c)
    ensures Succeeds(c) <==> Clean(c)
    ensures Clean(c) ==> !MeetsRefusal(c) && Inserted(c) == Writes(c)
    decreases c
  {
    match c
    case Then(first, second) => SoundIsClean(first); SoundIsClean(second);
    case WithTx(body, _) => SoundIsClean(body);
    case Run(body, _) => SoundIsClean(body);
    case _ =>
  }

  /** The outermost transaction commits all the writes of its tree, in order, or none; the former exactly when
      it begins, nothing in it fails and the commit goes through. */
  lemma AllOrNothing(table: seq<Row>, body: Call, fault: Fault)
    requires SwallowsNothing(body)
    ensures var (end, ok) := Exec(Db(table, None), WithTx(body, fault));
      && (ok <==> Clean(body) && fault == Healthy)
      && end == Db(if ok then table + Writes(body) else table, None)
  {
    CommitsExactlyWhenSound(table, body, fault);
    SoundIsClean(body);
  }

  /** So an event published inside the transaction is committed exactly when each domain write of it is. */
  lemma PublishedWithTheDomain(table: seq<Row>, body: Call, fault: Fault, event: Row, domain: Row)
    requires SwallowsNothing(body) && event in Writes(body) && domain in Writes(body) && event !in table && domain !in table
    ensures event in Exec(Db(table, None), WithTx(body, fault)).0.table <==> domain in Exec(Db(table, None), WithTx(body, fault)).0.table
  {
    AllOrNothing(table, body, fault);
  }

  // ---- swallowed errors ----

  /** A swallowed failure of a nested transaction is not undone. Alone, the nested call fails and leaves no row; inside,
      what it inserted before it failed is committed with whatever follows, for every nested call and every sequel
      without a refusal. */
  lemma SwallowedFailureCommits(table: seq<Row>, inner: Call, after: Call, nested: Fault)
    requires !Succeeds(inner) && !MeetsRefusal(inner) && Succeeds(after) && !MeetsRefusal(after)
    ensures Exec(Db(table, None), WithTx(inner, nested)) == (Db(table, None), false)
    ensures Exec(Db(table, None), WithTx(Then(Swallow(WithTx(inner, nested)), after), Healthy))
      == (Db(table + (Inserted(inner) + Inserted(after)), None), true)
  {
    CommitsExactlyWhenSound(table, inner, nested);
    var tried := Swallow(WithTx(inner, nested));
    assert Inserted(tried) == Inserted(WithTx(inner, nested)) == Inserted(inner);
    assert Succeeds(tried) && !MeetsRefusal(WithTx(inner, nested)) && !MeetsRefusal(tried);
    CommitsExactlyWhenSound(table, Then(tried, after), Healthy);
  }

  /** A refused statement is different: reached at any depth, swallowed by any caller on the way out, it loses the whole
      transaction. */
  lemma RefusalLosesTheTransaction(table: seq<Row>, body: Call, fault: Fault)
    requires MeetsRefusal(body)
    ensures Exec(Db(table, None), WithTx(body, fault)) == (Db(table, None), false)
  {
    CommitsExactlyWhenSound(table, body, fault);
  }

  // ---- the store ----

  class Store {
    var db: Db

    constructor (table: seq<Row>)
      ensures db == Db(table, None)
    {
      db := Db(table, None);
    }

    /** Run a call; `ctx` tells whether its context carries a transaction. */
    method Execute(c: Call, ctx: bool) returns (ok: bool)
      requires ctx == db.tx.Ambient?
      modifies this
      ensures (db, ok) == Exec(old(db), c)
      decreases c, 1
    {
      match c
      case Insert(row, fault) => ok := OneStatement(row, false, fault, ctx);
      case RefusedStatement(fault) => ok := OneStatement("", true, fault, ctx);
      case Fail => ok := false;
      case Done => ok := true;
      case Then(first, second) =>
        ok := Execute(first, ctx);
        if ok { ok := Execute(second, ctx); }
      case Swallow(body) =>
        var _ := Execute(body, ctx);
        ok := true;
      case WithTx(body, fault) => ok := InTransaction(body, fault, ctx);
      case Run(body, fault) =>
        if ctx { ok := Execute(body, true); } else { ok := InTransaction(body, fault, false); }
    }

    /** Join the ambient transaction, or begin one, run the callback and commit; any error on the way rolls back. */
    method InTransaction(body: Call, fault: Fault, ctx: bool) returns (ok: bool)
      requires ctx == db.tx.Ambient?
      modifies this
      ensures (db, ok) == Exec(old(db), WithTx(body, fault))
      decreases body, 2
    {
      if ctx {
        ok := Execute(body, true);
        return;
      }
      if fault.BeginFails? { return false; }
      db := Opened(db);
      if fault.SettingsFail? { Rollback(); return false; }
      ok := Execute(body, true);
      if !ok { Rollback(); return; }
      ok := Commit(fault);
    }

    method OneStatement(row: Row, refused: bool, fault: Fault, ctx: bool) returns (ok: bool)
      requires ctx == db.tx.Ambient?
      modifies this
      ensures (db, ok) == Exec(old(db), if refused then RefusedStatement(fault) else Insert(row, fault))
    {
      if !ctx {
        if fault.BeginFails? { return false; }
        db := Opened(db);
        if fault.SettingsFail? { Rollback(); return false; }
      }
      var r := Statement(db, row, refused);
      db, ok := r.0, r.1;
      if !ctx {
        if !ok { Rollback(); return; }
        ok := Commit(fault);
      }
    }

    method Rollback()
      requires db.tx.Ambient?
      modifies this
      ensures db == Db(old(db).table, None)
    {
      db := Db(db.table, None);
    }

    method Commit(fault: Fault) returns (ok: bool)
      requires db.tx.Ambient?
      modifies this
      ensures (db, ok) == Finished(old(db).table, old(db), true, fault)
    {
      if db.tx.tx.aborted || fault.CommitFails? {
        Rollback();
        return false;
      }
      db := Db(db.table + db.tx.tx.writes, None);
      ok := true;
    }
  }
}
