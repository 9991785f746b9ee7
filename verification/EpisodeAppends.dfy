/** The append of the unit of work and the transactions of a run: each append a run brings to an end is one call of
    `EpisodeUnitOfWork.PostgresUnitOfWork.Append` among the commits its statements meet, and each statement of such a
    call is a step. */
module EpisodeAppends {
  import opened Kernel
  import opened Text
  import opened EpisodeStore
  import opened EpisodeTransactions
  import opened EpisodeUnitOfWork

  /** The next statement of an append, on what is committed when it runs; nothing after the last. */
  function OneStatement(tx: Transaction, t: Tables): Transaction {
    match tx.stage
    case Locked(e) => AfterLook(tx, With(t, tx.rows), e)
    case Missed(e) => AfterPutEpisode(tx, With(t, tx.rows), e)
    case Stored(e) => AfterPutKey(tx, With(t, tx.rows), e)
    case Fallback(e) => AfterLookAgain(tx, With(t, tx.rows), e)
    case _ => tx
  }

  function Statements(tx: Transaction, ts: seq<Tables>): Transaction {
    if ts == [] then tx else OneStatement(Statements(tx, ts[..|ts| - 1]), ts[|ts| - 1])
  }

  /** Past the lock and not at the end. */
  predicate Between(stage: Stage) {
    InProgress(stage) && !stage.Wanting?
  }

  lemma StatementIs(s: System, s': System, p: nat)
    ensures Statement(s, s', p) <==>
            && p < |s.transactions| && Between(s.transactions[p].stage)
            && (s.transactions[p].stage.Missed? || s.transactions[p].stage.Stored? ==> !Waits(s, p, s.transactions[p].stage.e))
            && s' == Move(s, p, OneStatement(s.transactions[p], s.tables))
  {
  }

  lemma FourStatements(tx: Transaction, ts: seq<Tables>)
    requires |ts| == 4
    ensures Statements(tx, ts) == OneStatement(OneStatement(OneStatement(OneStatement(tx, ts[0]), ts[1]), ts[2]), ts[3])
  {
    var three := ts[..3];
    assert three[..2] == ts[..2] && ts[..2][..1] == ts[..1] && ts[..1][..0] == [];
    assert Statements(tx, ts[..1]) == OneStatement(tx, ts[0]);
    assert Statements(tx, ts[..2]) == OneStatement(Statements(tx, ts[..1]), ts[1]);
    assert Statements(tx, three) == OneStatement(Statements(tx, ts[..2]), ts[2]);
  }

  /** The statements of an append in one go are its statements one by one. */
  lemma AppendingIsStatements(tx: Transaction, ts: seq<Tables>, e: Episode)
    requires |ts| == 4 && tx.stage == Locked(e)
    ensures Appending(tx, ts, e) == Statements(tx, ts)
  {
    FourStatements(tx, ts);
  }

  /** Where an append stands after so many statements, unless it has ended. */
  function StageNumber(n: nat, e: Episode): Stage {
    if n == 0 then Locked(e) else if n == 1 then Missed(e) else if n == 2 then Stored(e) else Fallback(e)
  }

  lemma {:induction false} StageAfter(tx: Transaction, ts: seq<Tables>, e: Episode)
    requires tx.stage == Locked(e) && Between(Statements(tx, ts).stage)
    ensures |ts| < 4 && Statements(tx, ts).stage == StageNumber(|ts|, e)
  {
    if ts != [] {
      var before := Statements(tx, ts[..|ts| - 1]);
      if Between(before.stage) {
        StageAfter(tx, ts[..|ts| - 1], e);
      }
    }
  }

  /** Once an append has ended, nothing more is done. */
  lemma {:induction false} Padded(tx: Transaction, ts: seq<Tables>, more: seq<Tables>)
    requires !Between(Statements(tx, ts).stage)
    ensures Statements(tx, ts + more) == Statements(tx, ts)
    decreases |more|
  {
    if more == [] {
      assert ts + more == ts;
    } else {
      var init := more[..|more| - 1];
      Padded(tx, ts, init);
      assert (ts + more)[..|ts + more| - 1] == ts + init;
    }
  }

  /** A transaction without its past. */
  function Fresh(tx: Transaction): Transaction {
    tx.(ops := [], answers := [])
  }

  /** The same transaction with a past. */
  function Following(past: Transaction, tx: Transaction): Transaction {
    tx.(ops := past.ops + tx.ops, answers := past.answers + tx.answers)
  }

  lemma OneFollows(past: Transaction, tx: Transaction, t: Tables)
    ensures OneStatement(Following(past, tx), t) == Following(past, OneStatement(tx, t))
  {
    var after := OneStatement(tx, t);
    if after.ops != tx.ops {
      assert past.ops + (tx.ops + [after.ops[|tx.ops|]]) == past.ops + tx.ops + [after.ops[|tx.ops|]];
      assert past.answers + (tx.answers + [after.answers[|tx.answers|]]) == past.answers + tx.answers + [after.answers[|tx.answers|]];
    }
  }

  lemma {:induction false} StatementsFollow(tx: Transaction, ts: seq<Tables>)
    ensures Statements(tx, ts) == Following(tx, Statements(Fresh(tx), ts))
  {
    if ts == [] {
      assert tx.ops + [] == tx.ops && tx.answers + [] == tx.answers;
    } else {
      StatementsFollow(tx, ts[..|ts| - 1]);
      OneFollows(tx, Statements(Fresh(tx), ts[..|ts| - 1]), ts[|ts| - 1]);
    }
  }

  // ----- Appends of a run ---------------------------------------------------------------------------------

  function AtLock(hash: IndexKey -> int, tx: Transaction): Transaction
    requires tx.stage.Wanting?
  {
    tx.(locks := tx.locks + {hash(KeyOf(tx.stage.e))}, stage := Locked(tx.stage.e))
  }

  /** A transaction inside an append takes its lock, or runs its next statement, or stays as it is. */
  predicate Goes(hash: IndexKey -> int, tx: Transaction, t: Tables, after: Transaction) {
    || after == tx
    || (tx.stage.Wanting? && after == AtLock(hash, tx))
    || (Between(tx.stage) && after == OneStatement(tx, t))
  }

  /** That is all a step can do to it, short of an interruption. */
  lemma StepGoes(hash: IndexKey -> int, s: System, s': System, p: nat)
    requires Next(hash, s, s') && p < |s.transactions| && InProgress(s.transactions[p].stage)
    ensures p < |s'.transactions|
    ensures Goes(hash, s.transactions[p], s.tables, s'.transactions[p]) || s'.transactions[p].stage == Failed(Interrupted)
  {
    if Begin(s, s') {
    } else if q: nat, e :| Call(s, s', q, e) {
    } else if q: nat :| TakeLock(hash, s, s', q) {
      assert q != p ==> s'.transactions[p] == s.transactions[p];
    } else if q: nat :| Statement(s, s', q) {
      StatementIs(s, s', q);
    } else if q: nat, event :| DoPublish(s, s', q, event) {
    } else if q: nat :| Commit(s, s', q) {
    } else {
      var q: nat :| RollBack(s, s', q);
    }
  }

  /** A transaction, moment by moment, beside what is committed at each. */
  predicate Thread(hash: IndexKey -> int, txs: seq<Transaction>, tables: seq<Tables>) {
    && 0 < |txs| == |tables| && txs[0].stage.Wanting?
    && forall m :: 0 <= m < |txs| - 1 ==> Goes(hash, txs[m], tables[m], txs[m + 1])
  }

  /** Moments before the last, in order. */
  predicate Moments(ms: seq<nat>, end: nat) {
    && (forall n :: 0 <= n < |ms| ==> ms[n] < end)
    && forall n, m :: 0 <= n < m < |ms| ==> ms[n] <= ms[m]
  }

  function Met(tables: seq<Tables>, ms: seq<nat>): (ts: seq<Tables>)
    requires forall n :: 0 <= n < |ms| ==> ms[n] < |tables|
    ensures |ts| == |ms| && forall n :: 0 <= n < |ms| ==> ts[n] == tables[ms[n]]
  {
    seq(|ms|, n requires 0 <= n < |ms| => tables[ms[n]])
  }

  /** A transaction that called as `tx` waits for its lock, or has run its statements on these tables. */
  predicate SoFar(hash: IndexKey -> int, tx: Transaction, ts: seq<Tables>, now: Transaction)
    requires tx.stage.Wanting?
  {
    (ts == [] && now == tx) || now == Statements(AtLock(hash, tx), ts)
  }

  lemma {:induction false} NeverWants(tx: Transaction, ts: seq<Tables>)
    requires !tx.stage.Wanting?
    ensures !Statements(tx, ts).stage.Wanting?
  {
    if ts != [] {
      NeverWants(tx, ts[..|ts| - 1]);
    }
  }

  lemma GoesOn(hash: IndexKey -> int, tx: Transaction, ts: seq<Tables>, now: Transaction, t: Tables, after: Transaction)
    requires tx.stage.Wanting? && SoFar(hash, tx, ts, now) && Goes(hash, now, t, after)
    ensures SoFar(hash, tx, ts, after) || (|ts| < 4 && SoFar(hash, tx, ts + [t], after))
  {
    if now.stage.Wanting? && after == AtLock(hash, now) {
      NeverWants(AtLock(hash, tx), ts);
      assert Statements(AtLock(hash, tx), []) == AtLock(hash, tx);
    } else if Between(now.stage) && after == OneStatement(now, t) {
      StageAfter(AtLock(hash, tx), ts, tx.stage.e);
      assert (ts + [t])[..|ts|] == ts;
    }
  }

  lemma {:induction false} ThreadSoFar(hash: IndexKey -> int, txs: seq<Transaction>, tables: seq<Tables>, k: nat) returns (ms: seq<nat>)
    requires Thread(hash, txs, tables) && k < |txs|
    ensures |ms| <= 4 && Moments(ms, k) && SoFar(hash, txs[0], Met(tables, ms), txs[k])
  {
    if k == 0 {
      ms := [];
    } else {
      ms := ThreadSoFar(hash, txs, tables, k - 1);
      var ts := Met(tables, ms);
      ThreadGoes(hash, txs, tables, k - 1);
      GoesOn(hash, txs[0], ts, txs[k - 1], tables[k - 1], txs[k]);
      if !SoFar(hash, txs[0], ts, txs[k]) {
        MetMore(tables, ms, k - 1);
        ms := ms + [k - 1];
      }
    }
  }

  lemma ThreadGoes(hash: IndexKey -> int, txs: seq<Transaction>, tables: seq<Tables>, m: nat)
    requires Thread(hash, txs, tables) && m + 1 < |txs|
    ensures Goes(hash, txs[m], tables[m], txs[m + 1])
  {
  }

  lemma MetMore(tables: seq<Tables>, ms: seq<nat>, m: nat)
    requires Moments(ms, m) && m < |tables|
    ensures Moments(ms + [m], m + 1) && Met(tables, ms + [m]) == Met(tables, ms) + [tables[m]]
  {
  }

  /** The last moment again and again, up to four. */
  function Filled(ms: seq<nat>): (r: seq<nat>)
    requires 0 < |ms| <= 4
    ensures |r| == 4 && ms <= r && forall n :: |ms| <= n < 4 ==> r[n] == ms[|ms| - 1]
    decreases 4 - |ms|
  {
    if |ms| == 4 then ms else Filled(ms + [ms[|ms| - 1]])
  }

  lemma ThreadEnds(hash: IndexKey -> int, txs: seq<Transaction>, tables: seq<Tables>) returns (ms: seq<nat>)
    requires Thread(hash, txs, tables) && !InProgress(txs[|txs| - 1].stage)
    ensures |ms| == 4 && Moments(ms, |txs| - 1)
    ensures var tx, e := txs[0], txs[0].stage.e;
            txs[|txs| - 1] == Following(tx, Appending(Transaction([], [], tx.rows, tx.locks + {hash(KeyOf(e))}, Locked(e)), Met(tables, ms), e))
  {
    var some := ThreadSoFar(hash, txs, tables, |txs| - 1);
    ms := Filled(some);
    assert Met(tables, some) <= Met(tables, ms);
    AppendEnds(hash, txs[0], Met(tables, some), Met(tables, ms), txs[|txs| - 1]);
  }

  lemma AppendEnds(hash: IndexKey -> int, tx: Transaction, ts: seq<Tables>, all: seq<Tables>, now: Transaction)
    requires tx.stage.Wanting? && SoFar(hash, tx, ts, now) && !InProgress(now.stage) && ts <= all && |all| == 4
    ensures var e := tx.stage.e;
            now == Following(tx, Appending(Transaction([], [], tx.rows, tx.locks + {hash(KeyOf(e))}, Locked(e)), all, e))
  {
    var e, locked := tx.stage.e, AtLock(hash, tx);
    assert ts + all[|ts|..] == all;
    Padded(locked, ts, all[|ts|..]);
    StatementsFollow(locked, all);
    AppendingIsStatements(Fresh(locked), all, e);
    assert Fresh(locked) == Transaction([], [], tx.rows, tx.locks + {hash(KeyOf(e))}, Locked(e));
  }

  /** From the call at `i` on, the append of transaction `p` does not end before `k`, nor is it interrupted by then. */
  predicate Appends(run: seq<System>, i: nat, k: nat, p: nat)
    requires i <= k < |run|
  {
    && (forall m :: i <= m < k ==> p < |run[m].transactions| && InProgress(run[m].transactions[p].stage))
    && p < |run[k].transactions| && run[k].transactions[p].stage != Failed(Interrupted)
  }

  /** Step by step, the transaction only goes on with its append. */
  predicate GoesAlong(hash: IndexKey -> int, run: seq<System>, i: nat, k: nat, p: nat)
    requires i <= k < |run| && Appends(run, i, k, p)
  {
    forall m :: i <= m < k ==> GoesAt(hash, run, m, p)
  }

  predicate GoesAt(hash: IndexKey -> int, run: seq<System>, m: nat, p: nat)
    requires m + 1 < |run|
  {
    && p < |run[m].transactions| && p < |run[m + 1].transactions|
    && Goes(hash, run[m].transactions[p], run[m].tables, run[m + 1].transactions[p])
  }

  lemma AppendGoes(hash: IndexKey -> int, run: seq<System>, i: nat, k: nat, p: nat)
    requires IsRun(hash, run) && i <= k < |run| && Appends(run, i, k, p)
    ensures GoesAlong(hash, run, i, k, p)
  {
    forall m | i <= m < k ensures GoesAt(hash, run, m, p) {
      RunGoes(hash, run, m, p);
    }
  }

  lemma AppendIsThread(hash: IndexKey -> int, run: seq<System>, i: nat, k: nat, p: nat) returns (txs: seq<Transaction>, tables: seq<Tables>)
    requires i <= k < |run| && Appends(run, i, k, p) && run[i].transactions[p].stage.Wanting? && GoesAlong(hash, run, i, k, p)
    ensures Thread(hash, txs, tables) && |txs| == k - i + 1
    ensures forall m :: 0 <= m < |txs| ==> txs[m] == run[i + m].transactions[p] && tables[m] == run[i + m].tables
  {
    txs := seq(k - i + 1, m requires 0 <= m < k - i + 1 => run[i + m].transactions[p]);
    tables := seq(k - i + 1, m requires 0 <= m < k - i + 1 => run[i + m].tables);
    forall m | 0 <= m < k - i ensures Goes(hash, txs[m], tables[m], txs[m + 1]) {
      assert GoesAt(hash, run, i + m, p);
    }
  }

  lemma RunGoes(hash: IndexKey -> int, run: seq<System>, m: nat, p: nat)
    requires IsRun(hash, run) && m + 1 < |run| && p < |run[m].transactions| && InProgress(run[m].transactions[p].stage)
    ensures p < |run[m + 1].transactions|
    ensures run[m + 1].transactions[p].stage == Failed(Interrupted) || Goes(hash, run[m].transactions[p], run[m].tables, run[m + 1].transactions[p])
  {
    assert Next(hash, run[m], run[m + 1]);
    StepGoes(hash, run[m], run[m + 1], p);
  }

  /** What others committed by each statement of an append: the tables at four moments of the run. */
  function Others(ts: seq<Tables>): (nat, Tables) -> Tables
    requires |ts| == 4
  {
    (n: nat, t: Tables) => if n < 4 then ts[n] else t
  }

  /** `PostgresUnitOfWork.Append` on a transaction in state `tx`, among the commits `ts`, ends with it in state `now`. */
  predicate Called(hash: IndexKey -> int, tx: Transaction, t: Tables, ts: seq<Tables>, now: Transaction)
    requires tx.stage.Wanting? && |ts| == 4
  {
    var e := tx.stage.e;
    var seen := seq(4, n requires 0 <= n < 4 => After(Others(ts), t, n));
    now == Following(tx, Appending(Transaction([], [], tx.rows, tx.locks + {hash(KeyOf(e))}, Locked(e)), seen, e))
  }

  lemma ThreadIsCall(hash: IndexKey -> int, txs: seq<Transaction>, tables: seq<Tables>) returns (ms: seq<nat>)
    requires Thread(hash, txs, tables) && !InProgress(txs[|txs| - 1].stage)
    ensures |ms| == 4 && Moments(ms, |txs| - 1) && Called(hash, txs[0], tables[0], Met(tables, ms), txs[|txs| - 1])
  {
    ms := ThreadEnds(hash, txs, tables);
    OthersAre(Met(tables, ms), tables[0]);
  }

  /** An append of a run, from its call to its end, is a call of the unit of work's `Append` among the commits its
      statements met: the tables at four moments since the call, in order. */
  lemma AppendIsCall(hash: IndexKey -> int, run: seq<System>, i: nat, k: nat, p: nat) returns (ms: seq<nat>, ts: seq<Tables>)
    requires IsRun(hash, run) && i <= k < |run| && Appends(run, i, k, p) && run[i].transactions[p].stage.Wanting?
    requires !InProgress(run[k].transactions[p].stage)
    ensures |ms| == |ts| == 4 && Moments(ms, k) && forall n :: 0 <= n < 4 ==> i <= ms[n] && ts[n] == run[ms[n]].tables
    ensures Called(hash, run[i].transactions[p], run[i].tables, ts, run[k].transactions[p])
  {
    AppendGoes(hash, run, i, k, p);
    ms, ts := AlongIsCall(hash, run, i, k, p);
  }

  lemma AlongIsCall(hash: IndexKey -> int, run: seq<System>, i: nat, k: nat, p: nat) returns (ms: seq<nat>, ts: seq<Tables>)
    requires i <= k < |run| && Appends(run, i, k, p) && run[i].transactions[p].stage.Wanting? && GoesAlong(hash, run, i, k, p)
    requires !InProgress(run[k].transactions[p].stage)
    ensures |ms| == |ts| == 4 && Moments(ms, k) && forall n :: 0 <= n < 4 ==> i <= ms[n] && ts[n] == run[ms[n]].tables
    ensures Called(hash, run[i].transactions[p], run[i].tables, ts, run[k].transactions[p])
  {
    var txs, tables := AppendIsThread(hash, run, i, k, p);
    var since := ThreadIsCall(hash, txs, tables);
    assert txs[0] == run[i].transactions[p] && tables[0] == run[i].tables && txs[k - i] == run[k].transactions[p];
    ts := Met(tables, since);
    ms := Shifted(since, i, k);
  }

  function Shifted(since: seq<nat>, i: nat, k: nat): (ms: seq<nat>)
    requires i <= k && Moments(since, k - i)
    ensures |ms| == |since| && Moments(ms, k) && forall n :: 0 <= n < |ms| ==> ms[n] == i + since[n]
  {
    seq(|since|, n requires 0 <= n < |since| => i + since[n])
  }

  lemma OthersAre(ts: seq<Tables>, t: Tables)
    requires |ts| == 4
    ensures seq(4, n requires 0 <= n < 4 => After(Others(ts), t, n)) == ts
  {
  }

  /** Conversely, each statement of a call is a step of the machine wherever no other open transaction holds a row it
      has to wait for; and with the last the call has ended as `Append` ensures. */
  lemma CallIsSteps(tx: Transaction, ts: seq<Tables>, e: Episode, n: nat, s: System, p: nat)
    requires tx.stage == Locked(e) && |ts| == 4 && n < 4 && Between(Statements(tx, ts[..n]).stage)
    requires p < |s.transactions| && s.transactions[p] == Statements(tx, ts[..n]) && s.tables == ts[n] && !Waits(s, p, e)
    ensures Statement(s, Move(s, p, Statements(tx, ts[..n + 1])), p)
    ensures !Between(Statements(tx, ts[..n + 1]).stage) ==> Statements(tx, ts[..n + 1]) == Appending(tx, ts, e)
    ensures n == 3 ==> !Between(Statements(tx, ts[..n + 1]).stage)
  {
    assert ts[..n + 1][..n] == ts[..n];
    StageAfter(tx, ts[..n], e);
    StatementIs(s, Move(s, p, Statements(tx, ts[..n + 1])), p);
    if Between(Statements(tx, ts[..n + 1]).stage) {
      StageAfter(tx, ts[..n + 1], e);
    } else {
      Padded(tx, ts[..n + 1], ts[n + 1..]);
      assert ts[..n + 1] + ts[n + 1..] == ts;
      AppendingIsStatements(tx, ts, e);
    }
  }
}
