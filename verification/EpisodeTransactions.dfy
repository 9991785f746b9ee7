/** PostgreSQL transactions that append episodes and publish events, statement by statement, at READ
    COMMITTED: each sees committed rows and its own. Every append first takes a transaction-level advisory
    lock on a hash of its tenant and key. */
module EpisodeTransactions {
  import opened Kernel
  import opened Text
  import opened EpisodeStore

  // ----- The serial meaning of a transaction ------------------------------------------------------

  datatype Op = AppendOf(episode: Episode) | PublishOf(event: Envelope)

  datatype Answer = Appended(result: AppendResult) | Published

  function Apply(c: Committed, op: Op): Result<(Committed, Answer), MemoryError> {
    match op
    case AppendOf(e) =>
      (match Append(c, e)
       case Err(error) => Err(error)
       case Ok((after, result)) => Ok((after, Appended(result))))
    case PublishOf(event) =>
      (match Publish(c, event)
       case Err(error) => Err(error)
       case Ok(after) => Ok((after, Published)))
  }

  /** The in-memory store's operations one after another. */
  function ApplyAll(c: Committed, ops: seq<Op>): Result<(Committed, seq<Answer>), MemoryError> {
    if ops == [] then Ok((c, []))
    else
      match ApplyAll(c, ops[..|ops| - 1])
      case Err(error) => Err(error)
      case Ok((work, answers)) =>
        match Apply(work, ops[|ops| - 1])
        case Err(error) => Err(error)
        case Ok((after, answer)) => Ok((after, answers + [answer]))
  }

  /** Whole transactions one after another, from the empty store. */
  function SerialAll(history: seq<seq<Op>>): Result<(Committed, seq<seq<Answer>>), MemoryError> {
    if history == [] then Ok((Committed([], map[], []), []))
    else
      match SerialAll(history[..|history| - 1])
      case Err(error) => Err(error)
      case Ok((c, replies)) =>
        match ApplyAll(c, history[|history| - 1])
        case Err(error) => Err(error)
        case Ok((after, answers)) => Ok((after, replies + [answers]))
  }

  function Join(a: Committed, b: Committed): Committed {
    Committed(a.episodes + b.episodes, a.index + b.index, a.events + b.events)
  }

  /** What an operation that succeeds adds. */
  function Gain(c: Committed, op: Op): Committed {
    match op
    case AppendOf(e) => if KeyOf(e) in c.index then Committed([], map[], []) else Committed([e], map[KeyOf(e) := e.id], [])
    case PublishOf(event) => Committed([], map[], [event])
  }

  lemma ApplyGains(c: Committed, op: Op)
    ensures Apply(c, op).Ok? ==> Apply(c, op).value.0 == Join(c, Gain(c, op))
  {
  }

  lemma JoinAssociates(a: Committed, b: Committed, d: Committed)
    ensures Join(Join(a, b), d) == Join(a, Join(b, d))
  {
  }

  lemma ApplyAllSnoc(c: Committed, ops: seq<Op>, op: Op)
    ensures ApplyAll(c, ops + [op]) ==
            match ApplyAll(c, ops)
            case Err(error) => Err(error)
            case Ok((work, answers)) =>
              match Apply(work, op)
              case Err(error) => Err(error)
              case Ok((after, answer)) => Ok((after, answers + [answer]))
  {
    assert (ops + [op])[..|ops|] == ops;
  }

  /** What a transaction adds in all, given where it starts. */
  function GainAll(c: Committed, ops: seq<Op>): Committed {
    if ops == [] || ApplyAll(c, ops[..|ops| - 1]).Err? then Committed([], map[], [])
    else Join(GainAll(c, ops[..|ops| - 1]), Gain(ApplyAll(c, ops[..|ops| - 1]).value.0, ops[|ops| - 1]))
  }

  lemma {:induction false} ApplyAllGains(c: Committed, ops: seq<Op>)
    ensures ApplyAll(c, ops).Ok? ==> ApplyAll(c, ops).value.0 == Join(c, GainAll(c, ops))
  {
    if ops != [] {
      var before, op := ops[..|ops| - 1], ops[|ops| - 1];
      ApplyAllGains(c, before);
      if ApplyAll(c, before).Ok? {
        var work := ApplyAll(c, before).value.0;
        ApplyGains(work, op);
        JoinAssociates(c, GainAll(c, before), Gain(work, op));
      }
    } else {
      assert Join(c, GainAll(c, [])) == c;
    }
  }

  // ----- A commit by others does not show in a transaction ------------------------------------------

  ghost predicate IdsApart(a: seq<Episode>, b: seq<Episode>) {
    forall x, y :: x in a && y in b ==> x.id != y.id
  }

  predicate KeyFree(c: Committed, op: Op) {
    op.AppendOf? ==> KeyOf(op.episode) !in c.index
  }

  lemma {:induction false} FirstWithJoin(a: seq<Episode>, b: seq<Episode>, id: Uuid)
    ensures FirstWith(a + b, id) == if FirstWith(a, id).Some? then FirstWith(a, id) else FirstWith(b, id)
  {
    if a == [] {
      assert a + b == b;
    } else {
      assert (a + b)[1..] == a[1..] + b;
      FirstWithJoin(a[1..], b, id);
    }
  }

  /** Rows `other` slipped in between the base and the transaction's own rows leave lookups alone. */
  lemma FirstWithFramed(base: seq<Episode>, other: seq<Episode>, own: seq<Episode>, id: Uuid)
    requires IdsApart(other, own) && FirstWith(base + own, id).Some?
    ensures FirstWith(base + other + own, id) == FirstWith(base + own, id)
  {
    FirstWithJoin(base, own, id);
    FirstWithJoin(base + other, own, id);
    FirstWithJoin(base, other, id);
  }

  lemma ApplyFramed(base: Committed, other: Committed, own: Committed, op: Op)
    requires IdsApart(other.episodes, own.episodes) && KeyFree(other, op)
    requires Apply(Join(base, own), op).Ok?
    ensures Apply(Join(Join(base, other), own), op).Ok?
    ensures Apply(Join(Join(base, other), own), op).value.1 == Apply(Join(base, own), op).value.1
    ensures Gain(Join(Join(base, other), own), op) == Gain(Join(base, own), op)
  {
    match op
    case AppendOf(e) =>
      if KeyOf(e) in Join(base, own).index {
        var id := Join(base, own).index[KeyOf(e)];
        FirstWithFramed(base.episodes, other.episodes, own.episodes, id);
      }
    case PublishOf(event) =>
      if event.kind == EpisodeRecorded {
        FirstWithFramed(base.episodes, other.episodes, own.episodes, event.aggregate);
      }
  }

  /** Replaying a transaction after others committed rows for keys and ids it does not touch gives the same
      answers and adds the same rows. */
  lemma {:induction false} ReplayFramed(base: Committed, other: Committed, ops: seq<Op>)
    requires ApplyAll(base, ops).Ok?
    requires IdsApart(other.episodes, GainAll(base, ops).episodes)
    requires forall op :: op in ops ==> KeyFree(other, op)
    ensures GainAll(Join(base, other), ops) == GainAll(base, ops)
    ensures ApplyAll(Join(base, other), ops) ==
            Ok((Join(Join(base, other), GainAll(base, ops)), ApplyAll(base, ops).value.1))
  {
    ApplyAllGains(base, ops);
    if ops == [] {
      assert Join(Join(base, other), GainAll(base, [])) == Join(base, other);
    } else {
      var before, op := ops[..|ops| - 1], ops[|ops| - 1];
      ReplayFramed(base, other, before);
      ApplyAllGains(base, before);
      var own := GainAll(base, before);
      ApplyFramed(base, other, own, op);
      ApplyGains(Join(Join(base, other), own), op);
      JoinAssociates(Join(base, other), own, Gain(Join(base, own), op));
    }
  }

  // ----- Tables and transactions -----------------------------------------------------------------

  /** A row of the idempotency table repeats the request columns of its episode. */
  datatype Row = Row(episode: Uuid, request: Request)

  datatype Tables = Tables(episodes: seq<Episode>, index: map<IndexKey, Row>, events: seq<Envelope>)

  const NO_ROWS := Tables([], map[], [])

  function Meaning(t: Tables): Committed {
    Committed(t.episodes, map k | k in t.index :: t.index[k].episode, t.events)
  }

  function With(t: Tables, own: Tables): Tables {
    Tables(t.episodes + own.episodes, t.index + own.index, t.events + own.events)
  }

  lemma MeaningOfWith(t: Tables, own: Tables)
    ensures Meaning(With(t, own)) == Join(Meaning(t), Meaning(own))
  {
  }

  datatype Failure = Refused(error: MemoryError) | UniqueViolation | RowVanished | Interrupted

  /** Where a transaction is: between operations, or inside an append before its next statement. */
  datatype Stage =
    | Idle
    | Wanting(e: Episode)   // about to take the advisory lock
    | Locked(e: Episode)    // about to look for the idempotency row
    | Missed(e: Episode)    // about to insert the episode
    | Stored(e: Episode)    // about to insert the idempotency row
    | Fallback(e: Episode)  // lost that insert: about to look again
    | Done
    | Failed(failure: Failure)

  datatype Transaction = Transaction(ops: seq<Op>, answers: seq<Answer>, rows: Tables, locks: set<int>, stage: Stage)

  /** `owners` tells who generated an episode id; `history` and `replies` are the committed transactions.
      No step looks at the last two. */
  datatype System = System(tables: Tables, transactions: seq<Transaction>, owners: map<Uuid, nat>,
                           history: seq<seq<Op>>, replies: seq<seq<Answer>>)

  predicate Active(tx: Transaction) {
    !tx.stage.Done? && !tx.stage.Failed?
  }

  function Answered(tx: Transaction, op: Op, answer: Answer): Transaction {
    tx.(ops := tx.ops + [op], answers := tx.answers + [answer], stage := Idle)
  }

  /** An exception leaves the transaction block, which rolls back: the rows and locks of a transaction that
      is not active count for nothing. */
  function Abandoned(tx: Transaction, failure: Failure): Transaction {
    tx.(stage := Failed(failure))
  }

  /** The verdict on an idempotency row. */
  function Judged(tx: Transaction, e: Episode, row: Row): Transaction {
    if row.request != e.request then Abandoned(tx, Refused(IdempotencyConflict))
    else Answered(tx, AppendOf(e), Appended(AppendResult(row.episode, false)))
  }

  function AfterLook(tx: Transaction, seen: Tables, e: Episode): Transaction {
    if KeyOf(e) in seen.index then Judged(tx, e, seen.index[KeyOf(e)]) else tx.(stage := Missed(e))
  }

  /** Two episodes that may not both be in the table: primary key and unique constraint. */
  predicate Clash(x: Episode, e: Episode) {
    TenantOf(x) == TenantOf(e) && (x.id == e.id || x.key == e.key)
  }

  predicate Clashes(episodes: seq<Episode>, e: Episode) {
    exists x :: x in episodes && Clash(x, e)
  }

  function AfterPutEpisode(tx: Transaction, seen: Tables, e: Episode): Transaction {
    if Clashes(seen.episodes, e) then Abandoned(tx, UniqueViolation)
    else tx.(rows := tx.rows.(episodes := tx.rows.episodes + [e]), stage := Stored(e))
  }

  function AfterPutKey(tx: Transaction, seen: Tables, e: Episode): Transaction {
    if KeyOf(e) in seen.index then tx.(stage := Fallback(e))
    else
      Answered(tx.(rows := tx.rows.(index := tx.rows.index[KeyOf(e) := Row(e.id, e.request)])),
               AppendOf(e), Appended(AppendResult(e.id, true)))
  }

  function AfterLookAgain(tx: Transaction, seen: Tables, e: Episode): Transaction {
    if KeyOf(e) in seen.index then Judged(tx, e, seen.index[KeyOf(e)]) else Abandoned(tx, RowVanished)
  }

  /** The statements of one append, `tables` being what is committed when each of them runs. */
  function Appending(tx: Transaction, tables: seq<Tables>, e: Episode): Transaction
    requires |tables| == 4
  {
    var looked := AfterLook(tx, With(tables[0], tx.rows), e);
    if looked.stage != Missed(e) then looked
    else
      var put := AfterPutEpisode(looked, With(tables[1], looked.rows), e);
      if put.stage != Stored(e) then put
      else
        var keyed := AfterPutKey(put, With(tables[2], put.rows), e);
        if keyed.stage != Fallback(e) then keyed else AfterLookAgain(keyed, With(tables[3], keyed.rows), e)
  }

  /** Publishing checks a recorded event against the tenants of the rows with its episode id. */
  function AfterPublish(tx: Transaction, seen: Tables, event: Envelope): Transaction {
    if event.kind == EpisodeRecorded && !(exists x :: x in seen.episodes && x.id == event.aggregate) then
      Abandoned(tx, Refused(AggregateUnknown))
    else if event.kind == EpisodeRecorded
            && !(exists x :: x in seen.episodes && x.id == event.aggregate && TenantOf(x) == event.tenant) then
      Abandoned(tx, Refused(TenantMismatch))
    else Answered(tx.(rows := tx.rows.(events := tx.rows.events + [event])), PublishOf(event), Published)
  }

  function Seen(s: System, p: nat): Tables
    requires p < |s.transactions|
  {
    With(s.tables, s.transactions[p].rows)
  }

  /** An insert waits while another open transaction holds a row it may clash with. */
  predicate Waits(s: System, p: nat, e: Episode) {
    exists q :: 0 <= q < |s.transactions| && q != p && Active(s.transactions[q])
                && (Clashes(s.transactions[q].rows.episodes, e) || KeyOf(e) in s.transactions[q].rows.index)
  }

  function Move(s: System, p: nat, tx: Transaction): System
    requires p < |s.transactions|
  {
    s.(transactions := s.transactions[p := tx])
  }

  predicate Begin(s: System, s': System) {
    s' == s.(transactions := s.transactions + [Transaction([], [], NO_ROWS, {}, Idle)])
  }

  /** An append is called with an episode whose id was just generated. */
  predicate Call(s: System, s': System, p: nat, e: Episode) {
    && p < |s.transactions| && s.transactions[p].stage == Idle && e.id !in s.owners
    && s' == Move(s, p, s.transactions[p].(stage := Wanting(e))).(owners := s.owners[e.id := p])
  }

  predicate TakeLock(hash: IndexKey -> int, s: System, s': System, p: nat) {
    && p < |s.transactions| && s.transactions[p].stage.Wanting?
    && var tx := s.transactions[p];
       var h := hash(KeyOf(tx.stage.e));
       && (forall q :: 0 <= q < |s.transactions| && q != p && Active(s.transactions[q]) ==> h !in s.transactions[q].locks)
       && s' == Move(s, p, tx.(locks := tx.locks + {h}, stage := Locked(tx.stage.e)))
  }

  predicate Statement(s: System, s': System, p: nat) {
    && p < |s.transactions|
    && var tx, seen := s.transactions[p], Seen(s, p);
       match tx.stage
       case Locked(e) => s' == Move(s, p, AfterLook(tx, seen, e))
       case Missed(e) => !Waits(s, p, e) && s' == Move(s, p, AfterPutEpisode(tx, seen, e))
       case Stored(e) => !Waits(s, p, e) && s' == Move(s, p, AfterPutKey(tx, seen, e))
       case Fallback(e) => s' == Move(s, p, AfterLookAgain(tx, seen, e))
       case _ => false
  }

  predicate DoPublish(s: System, s': System, p: nat, event: Envelope) {
    && p < |s.transactions| && s.transactions[p].stage == Idle && event.kind != ClaimProposed
    && s' == Move(s, p, AfterPublish(s.transactions[p], Seen(s, p), event))
  }

  predicate Commit(s: System, s': System, p: nat) {
    && p < |s.transactions| && s.transactions[p].stage == Idle
    && var tx := s.transactions[p];
       s' == System.System(With(s.tables, tx.rows), s.transactions[p := tx.(rows := NO_ROWS, locks := {}, stage := Done)],
                    s.owners, s.history + [tx.ops], s.replies + [tx.answers])
  }

  /** A caller's exception, a deadlock victim, a lost connection. */
  predicate RollBack(s: System, s': System, p: nat) {
    && p < |s.transactions| && Active(s.transactions[p])
    && s' == Move(s, p, Abandoned(s.transactions[p], Interrupted))
  }

  ghost predicate Next(hash: IndexKey -> int, s: System, s': System) {
    || Begin(s, s')
    || (exists p: nat, e :: Call(s, s', p, e))
    || (exists p: nat :: TakeLock(hash, s, s', p))
    || (exists p: nat :: Statement(s, s', p))
    || (exists p: nat, event :: DoPublish(s, s', p, event))
    || (exists p: nat :: Commit(s, s', p))
    || (exists p: nat :: RollBack(s, s', p))
  }

  ghost predicate IsRun(hash: IndexKey -> int, run: seq<System>) {
    && |run| > 0 && run[0] == System.System(NO_ROWS, [], map[], [], [])
    && forall i :: 0 <= i < |run| - 1 ==> Next(hash, run[i], run[i + 1])
  }

  // ----- The invariant ----------------------------------------------------------------------------

  ghost predicate HasKey(episodes: seq<Episode>, k: IndexKey) {
    exists e :: e in episodes && KeyOf(e) == k
  }

  /** Episode rows and idempotency rows match: each repeats the other's id and request. */
  ghost predicate Paired(t: Tables) {
    && (forall e :: e in t.episodes ==> KeyOf(e) in t.index && t.index[KeyOf(e)] == Row(e.id, e.request))
    && (forall k :: k in t.index ==> HasKey(t.episodes, k))
  }

  /** A transaction's rows without the episode of an append that is not through. */
  function Settled(tx: Transaction): Tables {
    if tx.stage.Stored? && tx.rows.episodes != [] then tx.rows.(episodes := tx.rows.episodes[..|tx.rows.episodes| - 1])
    else tx.rows
  }

  /** What a transaction has answered so far is what the serial store would answer had the transaction
      begun on the tables as they are now, and its rows are what that would add. */
  ghost predicate Replays(t: Tables, tx: Transaction) {
    && ApplyAll(Meaning(t), tx.ops) == Ok((Join(Meaning(t), Meaning(Settled(tx))), tx.answers))
    && GainAll(Meaning(t), tx.ops) == Meaning(Settled(tx))
  }

  /** An open transaction holds the lock of every key it touched. */
  ghost predicate KeysLocked(hash: IndexKey -> int, tx: Transaction) {
    && (forall x :: x in tx.rows.episodes ==> hash(KeyOf(x)) in tx.locks)
    && (forall op :: op in tx.ops && op.AppendOf? ==> hash(KeyOf(op.episode)) in tx.locks)
  }

  ghost predicate RowsHold(t: Tables, tx: Transaction) {
    && Paired(Settled(tx)) && IdsDistinct(tx.rows.episodes) && t.index.Keys !! Settled(tx).index.Keys
  }

  ghost predicate NewTo(e: Episode, episodes: seq<Episode>) {
    forall x :: x in episodes ==> x.id != e.id
  }

  ghost predicate StageHolds(hash: IndexKey -> int, t: Tables, tx: Transaction) {
    match tx.stage
    case Wanting(e) => NewTo(e, tx.rows.episodes)
    case Locked(e) => NewTo(e, tx.rows.episodes) && hash(KeyOf(e)) in tx.locks
    case Missed(e) => NewTo(e, tx.rows.episodes) && hash(KeyOf(e)) in tx.locks && KeyOf(e) !in With(t, tx.rows).index
    case Stored(e) => tx.rows.episodes != [] && tx.rows.episodes[|tx.rows.episodes| - 1] == e && KeyOf(e) !in With(t, tx.rows).index
    case Fallback(_) => false
    case _ => true
  }

  ghost predicate FailureHolds(tx: Transaction) {
    tx.stage.Failed? ==> tx.stage.failure in {Refused(IdempotencyConflict), Refused(AggregateUnknown),
                                              Refused(TenantMismatch), Interrupted}
  }

  ghost predicate OpenHolds(hash: IndexKey -> int, t: Tables, tx: Transaction) {
    Active(tx) ==> Replays(t, tx) && KeysLocked(hash, tx) && RowsHold(t, tx) && StageHolds(hash, t, tx)
  }

  predicate InProgress(stage: Stage) {
    stage.Wanting? || stage.Locked? || stage.Missed? || stage.Stored? || stage.Fallback?
  }

  /** Ids in an open transaction were generated for it. */
  ghost predicate OwnsIds(owners: map<Uuid, nat>, p: nat, tx: Transaction) {
    && (forall x :: x in tx.rows.episodes ==> x.id in owners && owners[x.id] == p)
    && (InProgress(tx.stage) ==> tx.stage.e.id in owners && owners[tx.stage.e.id] == p)
  }

  ghost predicate TablesHold(s: System) {
    && Paired(s.tables) && IdsDistinct(s.tables.episodes)
    && SerialAll(s.history) == Ok((Meaning(s.tables), s.replies))
    && forall x :: x in s.tables.episodes ==>
         x.id in s.owners && s.owners[x.id] < |s.transactions| && s.transactions[s.owners[x.id]].stage.Done?
  }

  ghost predicate NoneShared(x: Transaction, y: Transaction) {
    Active(x) && Active(y) ==> forall h :: h in x.locks ==> h !in y.locks
  }

  ghost predicate LocksApart(s: System) {
    forall p, q :: 0 <= p < |s.transactions| && 0 <= q < |s.transactions| && p != q ==>
      NoneShared(s.transactions[p], s.transactions[q])
  }

  ghost predicate TransactionHolds(hash: IndexKey -> int, s: System, p: nat)
    requires p < |s.transactions|
  {
    && OpenHolds(hash, s.tables, s.transactions[p]) && OwnsIds(s.owners, p, s.transactions[p])
    && FailureHolds(s.transactions[p])
  }

  ghost predicate Inv(hash: IndexKey -> int, s: System) {
    && TablesHold(s) && LocksApart(s)
    && (forall p :: 0 <= p < |s.transactions| ==> TransactionHolds(hash, s, p))
    && (forall id :: id in s.owners ==> s.owners[id] < |s.transactions|)
  }

  // ----- Lookups agree with the serial store ---------------------------------------------------------

  lemma SameIdSameEpisode(episodes: seq<Episode>, x: Episode, y: Episode)
    requires IdsDistinct(episodes) && x in episodes && y in episodes && x.id == y.id
    ensures x == y
  {
  }

  /** The idempotency row gives the verdict the serial append gives by looking at the episode. */
  lemma RowAgrees(seen: Tables, e: Episode)
    requires Paired(seen) && IdsDistinct(seen.episodes) && KeyOf(e) in seen.index
    ensures var row := seen.index[KeyOf(e)];
            Append(Meaning(seen), e) == if row.request != e.request then Err(IdempotencyConflict)
                                        else Ok((Meaning(seen), AppendResult(row.episode, false)))
  {
    assert HasKey(seen.episodes, KeyOf(e));
    var x :| x in seen.episodes && KeyOf(x) == KeyOf(e);
    var found := FirstWith(seen.episodes, x.id);
    SameIdSameEpisode(seen.episodes, x, found.value);
  }

  lemma PublishAgrees(tx: Transaction, seen: Tables, event: Envelope)
    requires IdsDistinct(seen.episodes)
    ensures match Publish(Meaning(seen), event)
            case Err(error) => AfterPublish(tx, seen, event) == Abandoned(tx, Refused(error))
                               && error in {AggregateUnknown, TenantMismatch}
            case Ok(after) => after == Meaning(seen.(events := seen.events + [event]))
                              && AfterPublish(tx, seen, event)
                                 == Answered(tx.(rows := tx.rows.(events := tx.rows.events + [event])), PublishOf(event), Published)
  {
    if event.kind == EpisodeRecorded {
      var found := FirstWith(seen.episodes, event.aggregate);
      if found.Some? {
        forall x | x in seen.episodes && x.id == event.aggregate ensures x == found.value {
          SameIdSameEpisode(seen.episodes, x, found.value);
        }
      }
    }
  }

  /** What an open transaction sees is paired and has distinct ids. */
  lemma SeenIsPaired(hash: IndexKey -> int, s: System, p: nat)
    requires Inv(hash, s) && p < |s.transactions| && Active(s.transactions[p])
    ensures var tx := s.transactions[p];
            && Paired(With(s.tables, Settled(tx))) && IdsDistinct(Seen(s, p).episodes)
            && IdsDistinct(With(s.tables, Settled(tx)).episodes)
            && Join(Meaning(s.tables), Meaning(Settled(tx))) == Meaning(With(s.tables, Settled(tx)))
            && (InProgress(tx.stage) && !tx.stage.Stored? ==> NewTo(tx.stage.e, Seen(s, p).episodes))
  {
    assert TransactionHolds(hash, s, p);
    var tx := s.transactions[p];
    MeaningOfWith(s.tables, Settled(tx));
    PairedWith(s.tables, Settled(tx));
    forall x, y | x in s.tables.episodes && y in tx.rows.episodes ensures x.id != y.id {
      assert s.owners[y.id] == p;
    }
    DistinctWith(s.tables.episodes, tx.rows.episodes);
    assert With(s.tables, Settled(tx)).episodes <= Seen(s, p).episodes;
  }

  lemma PairedWith(t: Tables, own: Tables)
    requires Paired(t) && Paired(own) && t.index.Keys !! own.index.Keys
    ensures Paired(With(t, own))
  {
    var seen := With(t, own);
    forall k | k in seen.index ensures HasKey(seen.episodes, k) {
      if k in t.index {
        assert HasKey(t.episodes, k);
        var e :| e in t.episodes && KeyOf(e) == k;
        assert e in seen.episodes;
      } else {
        assert HasKey(own.episodes, k);
        var e :| e in own.episodes && KeyOf(e) == k;
        assert e in seen.episodes;
      }
    }
  }

  lemma DistinctWith(a: seq<Episode>, b: seq<Episode>)
    requires IdsDistinct(a) && IdsDistinct(b) && IdsApart(a, b)
    ensures IdsDistinct(a + b)
  {
    forall i, j | 0 <= i < j < |a + b| ensures (a + b)[i].id != (a + b)[j].id {
      if i < |a| <= j {
        assert a[i] in a && b[j - |a|] in b;
      }
    }
  }

  // ----- Every step keeps the invariant ---------------------------------------------------------------

  /** A step of one transaction that leaves the tables alone, takes no lock of another and takes over no id. */
  lemma OneMoves(hash: IndexKey -> int, s: System, s': System, p: nat, tx: Transaction)
    requires Inv(hash, s) && p < |s.transactions| && Active(s.transactions[p]) && !tx.stage.Done?
    requires s' == Move(s, p, tx).(owners := s'.owners)
    requires s.owners.Keys <= s'.owners.Keys && forall id :: id in s'.owners ==>
               if id in s.owners then s'.owners[id] == s.owners[id] else s'.owners[id] == p
    requires OpenHolds(hash, s.tables, tx) && OwnsIds(s'.owners, p, tx) && FailureHolds(tx)
    requires forall q :: 0 <= q < |s.transactions| && q != p ==>
               NoneShared(tx, s.transactions[q]) && NoneShared(s.transactions[q], tx)
    ensures Inv(hash, s')
  {
    forall q | 0 <= q < |s'.transactions| ensures TransactionHolds(hash, s', q) {
      assert TransactionHolds(hash, s, q);
    }
    forall x | x in s'.tables.episodes
      ensures x.id in s'.owners && s'.owners[x.id] < |s'.transactions| && s'.transactions[s'.owners[x.id]].stage.Done?
    {
      assert s.owners[x.id] != p;
    }
    forall i, j | 0 <= i < |s'.transactions| && 0 <= j < |s'.transactions| && i != j
      ensures NoneShared(s'.transactions[i], s'.transactions[j])
    {
      assert NoneShared(s.transactions[i], s.transactions[j]);
    }
  }

  /** A transaction that keeps its locks and its rows' episodes and answers, or goes on with the same append. */
  lemma StaysPut(hash: IndexKey -> int, s: System, s': System, p: nat, tx: Transaction)
    requires Inv(hash, s) && p < |s.transactions| && Active(s.transactions[p]) && s' == Move(s, p, tx)
    requires tx.locks == s.transactions[p].locks && tx.rows.episodes == s.transactions[p].rows.episodes
    requires tx.stage == Idle || (InProgress(tx.stage) && InProgress(s.transactions[p].stage) && tx.stage.e == s.transactions[p].stage.e)
    requires OpenHolds(hash, s.tables, tx)
    ensures Inv(hash, s')
  {
    assert TransactionHolds(hash, s, p);
    forall q | 0 <= q < |s.transactions| && q != p
      ensures NoneShared(tx, s.transactions[q]) && NoneShared(s.transactions[q], tx)
    {
      assert NoneShared(s.transactions[p], s.transactions[q]) && NoneShared(s.transactions[q], s.transactions[p]);
    }
    OneMoves(hash, s, s', p, tx);
  }

  lemma AbandonKeeps(hash: IndexKey -> int, s: System, s': System, p: nat, failure: Failure)
    requires Inv(hash, s) && p < |s.transactions| && Active(s.transactions[p])
    requires s' == Move(s, p, Abandoned(s.transactions[p], failure))
    requires failure in {Refused(IdempotencyConflict), Refused(AggregateUnknown), Refused(TenantMismatch), Interrupted}
    ensures Inv(hash, s')
  {
    assert TransactionHolds(hash, s, p);
    OneMoves(hash, s, s', p, Abandoned(s.transactions[p], failure));
  }

  /** A transaction that answers `op` as the serial store does. */
  lemma AnswerReplays(t: Tables, tx: Transaction, tx': Transaction, op: Op)
    requires Replays(t, tx) && tx'.ops == tx.ops + [op] && !tx'.stage.Stored?
    requires Apply(Meaning(With(t, Settled(tx))), op).Ok?
    requires tx'.answers == tx.answers + [Apply(Meaning(With(t, Settled(tx))), op).value.1]
    requires Meaning(tx'.rows) == Join(Meaning(Settled(tx)), Gain(Meaning(With(t, Settled(tx))), op))
    ensures Replays(t, tx')
  {
    var base, own, seen := Meaning(t), Meaning(Settled(tx)), Meaning(With(t, Settled(tx)));
    MeaningOfWith(t, Settled(tx));
    ApplyAllSnoc(base, tx.ops, op);
    ApplyGains(seen, op);
    JoinAssociates(base, own, Gain(seen, op));
    assert tx'.ops[..|tx'.ops| - 1] == tx.ops;
  }

  lemma AddNothing(own: Tables)
    ensures Join(Meaning(own), Committed([], map[], [])) == Meaning(own)
  {
  }

  lemma AddRow(own: Tables, e: Episode)
    ensures Join(Meaning(own), Committed([e], map[KeyOf(e) := e.id], []))
         == Meaning(own.(episodes := own.episodes + [e], index := own.index[KeyOf(e) := Row(e.id, e.request)]))
  {
  }

  lemma AddEvent(own: Tables, event: Envelope)
    ensures Join(Meaning(own), Committed([], map[], [event])) == Meaning(own.(events := own.events + [event]))
  {
  }

  lemma CallKeeps(hash: IndexKey -> int, s: System, s': System, p: nat, e: Episode)
    requires Inv(hash, s) && Call(s, s', p, e)
    ensures Inv(hash, s')
  {
    assert TransactionHolds(hash, s, p);
    OneMoves(hash, s, s', p, s.transactions[p].(stage := Wanting(e)));
  }

  lemma TakeLockKeeps(hash: IndexKey -> int, s: System, s': System, p: nat)
    requires Inv(hash, s) && TakeLock(hash, s, s', p)
    ensures Inv(hash, s')
  {
    assert TransactionHolds(hash, s, p);
    OneMoves(hash, s, s', p, s'.transactions[p]);
  }

  lemma JudgedHolds(hash: IndexKey -> int, t: Tables, tx: Transaction, e: Episode)
    requires OpenHolds(hash, t, tx) && tx.stage == Locked(e) && KeyOf(e) in With(t, tx.rows).index
    requires Paired(With(t, tx.rows)) && IdsDistinct(With(t, tx.rows).episodes)
    requires With(t, tx.rows).index[KeyOf(e)].request == e.request
    ensures var tx' := Judged(tx, e, With(t, tx.rows).index[KeyOf(e)]);
            OpenHolds(hash, t, tx') && tx'.locks == tx.locks && tx'.rows == tx.rows && tx'.stage == Idle
  {
    var seen := With(t, tx.rows);
    var tx' := Judged(tx, e, seen.index[KeyOf(e)]);
    RowAgrees(seen, e);
    AddNothing(tx.rows);
    AnswerReplays(t, tx, tx', AppendOf(e));
  }

  lemma LookKeeps(hash: IndexKey -> int, s: System, s': System, p: nat)
    requires Inv(hash, s) && Statement(s, s', p) && s.transactions[p].stage.Locked?
    ensures Inv(hash, s')
  {
    assert TransactionHolds(hash, s, p);
    var tx := s.transactions[p];
    var e, seen := tx.stage.e, Seen(s, p);
    SeenIsPaired(hash, s, p);
    if KeyOf(e) !in seen.index {
      StaysPut(hash, s, s', p, tx.(stage := Missed(e)));
    } else if seen.index[KeyOf(e)].request != e.request {
      AbandonKeeps(hash, s, s', p, Refused(IdempotencyConflict));
    } else {
      JudgedHolds(hash, s.tables, tx, e);
      StaysPut(hash, s, s', p, Judged(tx, e, seen.index[KeyOf(e)]));
    }
  }

  lemma PutEpisodeKeeps(hash: IndexKey -> int, s: System, s': System, p: nat)
    requires Inv(hash, s) && Statement(s, s', p) && s.transactions[p].stage.Missed?
    ensures Inv(hash, s')
  {
    assert TransactionHolds(hash, s, p);
    var tx := s.transactions[p];
    var e := tx.stage.e;
    NeverClashes(hash, s, p);
    var tx' := tx.(rows := tx.rows.(episodes := tx.rows.episodes + [e]), stage := Stored(e));
    assert tx'.rows.episodes[..|tx'.rows.episodes| - 1] == tx.rows.episodes;
    assert Settled(tx') == tx.rows;
    DistinctWith(tx.rows.episodes, [e]);
    OneMoves(hash, s, s', p, tx');
  }

  /** The lock keeps the unique violation away. */
  lemma NeverClashes(hash: IndexKey -> int, s: System, p: nat)
    requires Inv(hash, s) && p < |s.transactions| && s.transactions[p].stage.Missed?
    ensures !Clashes(Seen(s, p).episodes, s.transactions[p].stage.e)
  {
    assert TransactionHolds(hash, s, p);
    SeenIsPaired(hash, s, p);
    var seen, e := Seen(s, p), s.transactions[p].stage.e;
    forall x | x in seen.episodes ensures !Clash(x, e) {
      assert KeyOf(x) in seen.index;
    }
  }

  lemma KeyStoredHolds(hash: IndexKey -> int, t: Tables, tx: Transaction, e: Episode)
    requires OpenHolds(hash, t, tx) && tx.stage == Stored(e)
    ensures var tx' := AfterPutKey(tx, With(t, tx.rows), e);
            OpenHolds(hash, t, tx') && tx'.locks == tx.locks && tx'.rows.episodes == tx.rows.episodes && tx'.stage == Idle
  {
    var tx', own := AfterPutKey(tx, With(t, tx.rows), e), Settled(tx);
    StoredRows(hash, t, tx, e);
    PairedSnoc(own, e);
    AddRow(own, e);
    AnswerReplays(t, tx, tx', AppendOf(e));
  }

  lemma StoredRows(hash: IndexKey -> int, t: Tables, tx: Transaction, e: Episode)
    requires OpenHolds(hash, t, tx) && tx.stage == Stored(e)
    ensures tx.rows.episodes == Settled(tx).episodes + [e] && e in tx.rows.episodes
  {
  }

  lemma PutKeyKeeps(hash: IndexKey -> int, s: System, s': System, p: nat)
    requires Inv(hash, s) && Statement(s, s', p) && s.transactions[p].stage.Stored?
    ensures Inv(hash, s')
  {
    assert TransactionHolds(hash, s, p);
    var tx, e := s.transactions[p], s.transactions[p].stage.e;
    KeyStoredHolds(hash, s.tables, tx, e);
    StaysPut(hash, s, s', p, AfterPutKey(tx, Seen(s, p), e));
  }

  lemma PairedSnoc(own: Tables, e: Episode)
    requires Paired(own) && KeyOf(e) !in own.index
    ensures Paired(own.(episodes := own.episodes + [e], index := own.index[KeyOf(e) := Row(e.id, e.request)]))
  {
    var own' := own.(episodes := own.episodes + [e], index := own.index[KeyOf(e) := Row(e.id, e.request)]);
    forall k | k in own'.index ensures HasKey(own'.episodes, k) {
      if k == KeyOf(e) {
        assert e in own'.episodes;
      } else {
        assert HasKey(own.episodes, k);
        var x :| x in own.episodes && KeyOf(x) == k;
        assert x in own'.episodes;
      }
    }
  }

  lemma PublishedHolds(hash: IndexKey -> int, t: Tables, tx: Transaction, event: Envelope)
    requires OpenHolds(hash, t, tx) && tx.stage == Idle && IdsDistinct(With(t, tx.rows).episodes)
    requires Publish(Meaning(With(t, tx.rows)), event).Ok?
    ensures OpenHolds(hash, t, AfterPublish(tx, With(t, tx.rows), event))
  {
    var tx' := AfterPublish(tx, With(t, tx.rows), event);
    PublishAgrees(tx, With(t, tx.rows), event);
    AddEvent(tx.rows, event);
    AnswerReplays(t, tx, tx', PublishOf(event));
  }

  lemma PublishKeeps(hash: IndexKey -> int, s: System, s': System, p: nat, event: Envelope)
    requires Inv(hash, s) && DoPublish(s, s', p, event)
    ensures Inv(hash, s')
  {
    assert TransactionHolds(hash, s, p);
    SeenIsPaired(hash, s, p);
    var tx := s.transactions[p];
    PublishAgrees(tx, Seen(s, p), event);
    match Publish(Meaning(Seen(s, p)), event)
    case Err(error) => AbandonKeeps(hash, s, s', p, Refused(error));
    case Ok(after) =>
      PublishedHolds(hash, s.tables, tx, event);
      OneMoves(hash, s, s', p, AfterPublish(tx, Seen(s, p), event));
  }

  lemma BeginKeeps(hash: IndexKey -> int, s: System, s': System)
    requires Inv(hash, s) && Begin(s, s')
    ensures Inv(hash, s')
  {
    assert Join(Meaning(s.tables), Meaning(NO_ROWS)) == Meaning(s.tables);
    forall q | 0 <= q < |s'.transactions| ensures TransactionHolds(hash, s', q) {
      if q < |s.transactions| {
        assert TransactionHolds(hash, s, q);
      }
    }
  }

  lemma LockedKeys(hash: IndexKey -> int, own: Tables, locks: set<int>)
    requires Paired(own) && forall e :: e in own.episodes ==> hash(KeyOf(e)) in locks
    ensures forall k :: k in own.index ==> hash(k) in locks
  {
    forall k | k in own.index ensures hash(k) in locks {
      assert HasKey(own.episodes, k);
      var e :| e in own.episodes && KeyOf(e) == k;
    }
  }

  lemma OwnIdsApart(owners: map<Uuid, nat>, p: nat, q: nat, x: Transaction, y: Transaction)
    requires p != q && OwnsIds(owners, p, x) && OwnsIds(owners, q, y)
    ensures IdsApart(x.rows.episodes, y.rows.episodes)
  {
    forall e, f | e in x.rows.episodes && f in y.rows.episodes ensures e.id != f.id {
      assert owners[e.id] == p && owners[f.id] == q;
    }
  }

  /** No key of one open transaction's rows is locked by another. */
  lemma RowsFree(hash: IndexKey -> int, x: Transaction, y: Transaction)
    requires NoneShared(x, y) && Active(x) && Active(y) && KeysLocked(hash, x) && Paired(x.rows)
    ensures forall k :: k in x.rows.index ==> hash(k) !in y.locks
  {
    LockedKeys(hash, x.rows, x.locks);
    forall k | k in x.rows.index ensures hash(k) !in y.locks {
      var h: int := hash(k);
      assert h in x.locks && h !in y.locks;
    }
  }

  /** The commit of rows for keys and ids a transaction does not touch leaves it holding. */
  lemma CommitFramed(hash: IndexKey -> int, t: Tables, other: Tables, tx: Transaction)
    requires OpenHolds(hash, t, tx) && Active(tx) && IdsApart(other.episodes, tx.rows.episodes)
    requires forall k :: k in other.index ==> hash(k) !in tx.locks
    ensures OpenHolds(hash, With(t, other), tx)
  {
    ReplaysFramed(hash, t, other, tx);
    forall e | e in Settled(tx).episodes ensures hash(KeyOf(e)) in tx.locks {
      assert e in tx.rows.episodes;
    }
    LockedKeys(hash, Settled(tx), tx.locks);
    if tx.stage.Stored? {
      assert tx.stage.e in tx.rows.episodes;
    }
  }

  lemma ReplaysFramed(hash: IndexKey -> int, t: Tables, other: Tables, tx: Transaction)
    requires Replays(t, tx) && KeysLocked(hash, tx) && IdsApart(other.episodes, tx.rows.episodes)
    requires forall k :: k in other.index ==> hash(k) !in tx.locks
    ensures Replays(With(t, other), tx)
  {
    MeaningOfWith(t, other);
    assert GainAll(Meaning(t), tx.ops).episodes == Settled(tx).episodes;
    forall x, y | x in other.episodes && y in Settled(tx).episodes ensures x.id != y.id {
      assert y in tx.rows.episodes;
    }
    forall op | op in tx.ops ensures KeyFree(Meaning(other), op) {
    }
    ReplayFramed(Meaning(t), Meaning(other), tx.ops);
  }

  lemma CommitKeeps(hash: IndexKey -> int, s: System, s': System, p: nat)
    requires Inv(hash, s) && Commit(s, s', p)
    ensures Inv(hash, s')
  {
    var own := s.transactions[p].rows;
    forall q | 0 <= q < |s'.transactions| ensures TransactionHolds(hash, s', q) {
      assert TransactionHolds(hash, s, q);
      if q != p && Active(s.transactions[q]) {
        assert TransactionHolds(hash, s, p) && NoneShared(s.transactions[p], s.transactions[q]);
        RowsFree(hash, s.transactions[p], s.transactions[q]);
        OwnIdsApart(s.owners, p, q, s.transactions[p], s.transactions[q]);
        CommitFramed(hash, s.tables, own, s.transactions[q]);
      }
    }
    CommitKeepsTables(hash, s, s', p);
    CommitKeepsLocks(s, s', p);
  }

  lemma CommitKeepsLocks(s: System, s': System, p: nat)
    requires LocksApart(s) && Commit(s, s', p)
    ensures LocksApart(s')
  {
    forall i, j | 0 <= i < |s'.transactions| && 0 <= j < |s'.transactions| && i != j
      ensures NoneShared(s'.transactions[i], s'.transactions[j])
    {
      assert NoneShared(s.transactions[i], s.transactions[j]);
    }
  }

  lemma CommitKeepsTables(hash: IndexKey -> int, s: System, s': System, p: nat)
    requires Inv(hash, s) && Commit(s, s', p)
    ensures TablesHold(s')
  {
    assert TransactionHolds(hash, s, p);
    SeenIsPaired(hash, s, p);
    HistoryGrows(s, s', s.transactions[p]);
    forall x | x in s'.tables.episodes
      ensures x.id in s'.owners && s'.owners[x.id] < |s'.transactions| && s'.transactions[s'.owners[x.id]].stage.Done?
    {
      assert x in s.tables.episodes || x in s.transactions[p].rows.episodes;
    }
  }

  lemma HistoryGrows(s: System, s': System, tx: Transaction)
    requires SerialAll(s.history) == Ok((Meaning(s.tables), s.replies)) && Replays(s.tables, tx) && tx.stage == Idle
    requires s'.history == s.history + [tx.ops] && s'.replies == s.replies + [tx.answers] && s'.tables == With(s.tables, tx.rows)
    ensures SerialAll(s'.history) == Ok((Meaning(s'.tables), s'.replies))
  {
    MeaningOfWith(s.tables, tx.rows);
    assert s'.history[..|s'.history| - 1] == s.history;
  }

  /** The lock keeps the fallback branch unreachable, so it needs no case here. */
  lemma StepKeeps(hash: IndexKey -> int, s: System, s': System)
    requires Inv(hash, s) && Next(hash, s, s')
    ensures Inv(hash, s')
  {
    if Begin(s, s') {
      BeginKeeps(hash, s, s');
    } else if p: nat, e :| Call(s, s', p, e) {
      CallKeeps(hash, s, s', p, e);
    } else if p: nat :| TakeLock(hash, s, s', p) {
      TakeLockKeeps(hash, s, s', p);
    } else if p: nat :| Statement(s, s', p) {
      StatementKeeps(hash, s, s', p);
    } else if p: nat, event :| DoPublish(s, s', p, event) {
      PublishKeeps(hash, s, s', p, event);
    } else if p: nat :| Commit(s, s', p) {
      CommitKeeps(hash, s, s', p);
    } else {
      var p: nat :| RollBack(s, s', p);
      AbandonKeeps(hash, s, s', p, Interrupted);
    }
  }

  lemma StatementKeeps(hash: IndexKey -> int, s: System, s': System, p: nat)
    requires Inv(hash, s) && Statement(s, s', p)
    ensures Inv(hash, s')
  {
    assert TransactionHolds(hash, s, p);
    match s.transactions[p].stage
    case Locked(_) => LookKeeps(hash, s, s', p);
    case Missed(_) => PutEpisodeKeeps(hash, s, s', p);
    case Stored(_) => PutKeyKeeps(hash, s, s', p);
    case _ =>
  }

  lemma {:induction false} RunKeeps(hash: IndexKey -> int, run: seq<System>, i: nat)
    requires IsRun(hash, run) && i < |run|
    ensures Inv(hash, run[i])
  {
    if i > 0 {
      RunKeeps(hash, run, i - 1);
      assert Next(hash, run[i - 1], run[i]);
      StepKeeps(hash, run[i - 1], run[i]);
    }
  }

  // ----- What every run guarantees, whatever the hash -----------------------------------------------

  /** No insert of an append ever meets a row: the fallback is never entered, no constraint is violated, and
      a transaction fails only because the serial store would refuse or because it is interrupted. */
  lemma FallbackUnreachable(hash: IndexKey -> int, run: seq<System>, i: nat, p: nat)
    requires IsRun(hash, run) && i < |run| && p < |run[i].transactions|
    ensures !run[i].transactions[p].stage.Fallback?
    ensures run[i].transactions[p].stage.Failed? ==>
              run[i].transactions[p].stage.failure in {Refused(IdempotencyConflict), Refused(AggregateUnknown),
                                                       Refused(TenantMismatch), Interrupted}
  {
    RunKeeps(hash, run, i);
    assert TransactionHolds(hash, run[i], p);
  }

  /** Runs are serializable in commit order: the tables hold exactly what the serial in-memory store holds
      after the committed transactions, and every answer they were given is the serial store's answer. */
  lemma Serializable(hash: IndexKey -> int, run: seq<System>, i: nat)
    requires IsRun(hash, run) && i < |run|
    ensures SerialAll(run[i].history) == Ok((Meaning(run[i].tables), run[i].replies))
  {
    RunKeeps(hash, run, i);
  }

  /** Even before it commits, a transaction has been answered as the serial store would answer it on the
      tables as they are now; and a conflict is raised exactly when the serial append would raise it. */
  lemma AnswersAreSerial(hash: IndexKey -> int, run: seq<System>, i: nat, p: nat)
    requires IsRun(hash, run) && i < |run| && p < |run[i].transactions| && Active(run[i].transactions[p])
    ensures var s := run[i];
            var tx := s.transactions[p];
            && ApplyAll(Meaning(s.tables), tx.ops).Ok? && ApplyAll(Meaning(s.tables), tx.ops).value.1 == tx.answers
            && (tx.stage.Locked? ==>
                  (AfterLook(tx, Seen(s, p), tx.stage.e).stage == Failed(Refused(IdempotencyConflict))
                   <==> Append(ApplyAll(Meaning(s.tables), tx.ops).value.0, tx.stage.e) == Err(IdempotencyConflict)))
  {
    RunKeeps(hash, run, i);
    var s := run[i];
    var tx := s.transactions[p];
    assert TransactionHolds(hash, s, p);
    SeenIsPaired(hash, s, p);
    if tx.stage.Locked? && KeyOf(tx.stage.e) in Seen(s, p).index {
      RowAgrees(Seen(s, p), tx.stage.e);
    }
  }

  /** Committed episode rows and idempotency rows are one to one and agree on id and request. */
  lemma OneToOne(hash: IndexKey -> int, run: seq<System>, i: nat)
    requires IsRun(hash, run) && i < |run|
    ensures Paired(run[i].tables) && IdsDistinct(run[i].tables.episodes)
    ensures |run[i].tables.episodes| == |run[i].tables.index|
  {
    RunKeeps(hash, run, i);
    PairedSize(run[i].tables.episodes, run[i].tables);
  }

  lemma PairedSize(episodes: seq<Episode>, t: Tables)
    requires Paired(t) && IdsDistinct(t.episodes) && episodes == t.episodes
    ensures |episodes| == |t.index|
  {
    var keys := seq(|episodes|, j requires 0 <= j < |episodes| => KeyOf(episodes[j]));
    forall j, k | 0 <= j < k < |keys| ensures keys[j] != keys[k] {
      assert episodes[j] in episodes && episodes[k] in episodes;
    }
    DistinctSize(keys);
    forall k ensures k in Elements(keys) <==> k in t.index.Keys {
      if k in Elements(keys) {
        var j :| 0 <= j < |keys| && keys[j] == k;
        assert episodes[j] in t.episodes;
      }
      if k in t.index {
        assert HasKey(t.episodes, k);
        var e :| e in t.episodes && KeyOf(e) == k;
        var j :| 0 <= j < |episodes| && episodes[j] == e;
        assert keys[j] == k;
      }
    }
    assert Elements(keys) == t.index.Keys;
  }

  /** What the record-episode handler does in a transaction: append, and publish when the episode is new. */
  ghost predicate IsRecording(ops: seq<Op>, answers: seq<Answer>) {
    || ops == []
    || (|ops| == |answers| == 1 && ops[0].AppendOf? && answers[0].Appended? && !answers[0].result.created)
    || (|ops| == |answers| == 2 && ops[0].AppendOf? && answers[0].Appended? && answers[0].result.created
        && ops[1].PublishOf? && ops[1].event == RecordedEvent(ops[0].episode, ops[1].event.eventId))
  }

  /** When every transaction is the record-episode handler's, the tables keep what the in-memory store keeps. */
  lemma {:induction false} RecordingsKeepConsistent(history: seq<seq<Op>>, c: Committed, replies: seq<seq<Answer>>)
    requires SerialAll(history) == Ok((c, replies)) && IdsDistinct(c.episodes)
    requires forall n :: 0 <= n < |history| && n < |replies| ==> IsRecording(history[n], replies[n])
    ensures Consistent(c) && |replies| == |history|
  {
    if history != [] {
      var before, ops := history[..|history| - 1], history[|history| - 1];
      var (work, earlier) := SerialAll(before).value;
      SerialLength(before);
      assert forall n :: 0 <= n < |before| ==> replies[n] == earlier[n];
      ApplyAllGains(work, ops);
      assert forall i :: 0 <= i < |work.episodes| ==> work.episodes[i] == c.episodes[i];
      RecordingsKeepConsistent(before, work, earlier);
      RecordingIsRecord(work, ops, ApplyAll(work, ops).value.1);
    }
  }

  lemma {:induction false} SerialLength(history: seq<seq<Op>>)
    requires SerialAll(history).Ok?
    ensures |SerialAll(history).value.1| == |history|
  {
    if history != [] {
      SerialLength(history[..|history| - 1]);
    }
  }

  lemma OneOrTwo(c: Committed, ops: seq<Op>)
    requires |ops| == 1 || |ops| == 2
    ensures |ops| == 1 ==> ApplyAll(c, ops) == match Apply(c, ops[0])
                                               case Err(error) => Err(error)
                                               case Ok((work, answer)) => Ok((work, [answer]))
    ensures |ops| == 2 ==> ApplyAll(c, ops) == match ApplyAll(c, [ops[0]])
                                               case Err(error) => Err(error)
                                               case Ok((work, answers)) =>
                                                 match Apply(work, ops[1])
                                                 case Err(error) => Err(error)
                                                 case Ok((after, answer)) => Ok((after, answers + [answer]))
  {
    ApplyAllSnoc(c, ops[..|ops| - 1], ops[|ops| - 1]);
    assert ops == ops[..|ops| - 1] + [ops[|ops| - 1]];
    if |ops| == 1 {
      assert ops[..0] == [] && ApplyAll(c, []) == Ok((c, []));
      assert forall answer: Answer :: [] + [answer] == [answer];
    } else {
      assert ops[..1] == [ops[0]];
    }
  }

  lemma RecordingIsRecord(c: Committed, ops: seq<Op>, answers: seq<Answer>)
    requires Consistent(c) && IsRecording(ops, answers) && ApplyAll(c, ops).Ok? && ApplyAll(c, ops).value.1 == answers
    requires IdsDistinct(ApplyAll(c, ops).value.0.episodes)
    ensures Consistent(ApplyAll(c, ops).value.0)
  {
    if |ops| == 1 {
      OneOrTwo(c, ops);
    } else if |ops| == 2 {
      NewIsFresh(c, ops, answers);
      RecordKeeps(c, ops[0].episode, ops[1].event.eventId);
    }
  }

  lemma NewIsFresh(c: Committed, ops: seq<Op>, answers: seq<Answer>)
    requires IsRecording(ops, answers) && |ops| == 2 && ApplyAll(c, ops).Ok? && ApplyAll(c, ops).value.1 == answers
    requires IdsDistinct(ApplyAll(c, ops).value.0.episodes)
    ensures FreshEpisode(c, ops[0].episode)
    ensures ApplyAll(c, ops).value.0 == Record(c, ops[0].episode, ops[1].event.eventId).0
  {
    OneOrTwo(c, ops);
    OneOrTwo(c, [ops[0]]);
    var e, after := ops[0].episode, ApplyAll(c, ops).value.0;
    assert after.episodes == c.episodes + [e];
    forall x | x in c.episodes ensures x.id != e.id {
      var i :| 0 <= i < |c.episodes| && c.episodes[i] == x;
      assert after.episodes[i].id != after.episodes[|c.episodes|].id;
    }
  }

  /** Runs of record-episode handlers over PostgreSQL commit only consistent states. */
  lemma HandlersKeepConsistent(hash: IndexKey -> int, run: seq<System>, i: nat)
    requires IsRun(hash, run) && i < |run|
    requires forall n :: 0 <= n < |run[i].history| && n < |run[i].replies| ==> IsRecording(run[i].history[n], run[i].replies[n])
    ensures Consistent(Meaning(run[i].tables))
  {
    RunKeeps(hash, run, i);
    RecordingsKeepConsistent(run[i].history, Meaning(run[i].tables), run[i].replies);
  }

  /** Were the fallback ever entered, a replay answered there would leave an episode row that no
      idempotency row names. */
  lemma FallbackLeavesOrphan(tx: Transaction, tables: seq<Tables>, e: Episode)
    requires |tables| == 4 && tx.stage == Locked(e) && KeyOf(e) !in With(tables[0], tx.rows).index
    requires !Clashes(With(tables[1], tx.rows).episodes, e) && KeyOf(e) !in tx.rows.index
    requires KeyOf(e) in tables[2].index && KeyOf(e) in tables[3].index
    requires tables[3].index[KeyOf(e)].request == e.request
    ensures var end := Appending(tx, tables, e);
            && end.stage == Idle && end.answers == tx.answers + [Appended(AppendResult(tables[3].index[KeyOf(e)].episode, false))]
            && e in end.rows.episodes && !Paired(end.rows)
  {
    var looked := tx.(stage := Missed(e));
    var put := looked.(rows := tx.rows.(episodes := tx.rows.episodes + [e]), stage := Stored(e));
    assert AfterPutEpisode(looked, With(tables[1], looked.rows), e) == put;
    assert e in put.rows.episodes;
  }
}
