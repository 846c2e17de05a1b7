/**
 Interleaved creations are serializable: a creation whose transaction looks at a column and
 commits later has taken effect where it looked.
 */
module CreateSerial {
  import opened Wrappers
  import opened Issues
  import opened ConcurrentCreate

  /** The request mentions the id: as its subject, or as a neighbour of a move. */
  predicate Names(op: Op, id: IssueId) {
    op.id == id || (op.Move? && (op.move.aboveId == Some(id) || op.move.belowId == Some(id)))
  }

  // ---- a pending creation commutes with other requests -------------------------

  /** The request neither mentions the pending creation's issue nor creates in its project. */
  predicate IsApart(op: Op, request: Op) {
    !Names(op, request.id) && (op.Create? && request.Create? ==> op.project != request.project)
  }

  lemma ColumnWithPending(db: Db, request: Op, number: nat, last: Option<string>, q: ProjectId, status: Status)
    requires request.Create? && q != request.project && request.id !in db.issues
    ensures LastRank(Committed(db, request, number, last), q, status) == LastRank(db, q, status)
  {
    var after := Committed(db, request, number, last);
    assert Column(after, q, status) == Column(db, q, status);
    LastIsUnique(db.issues, Column(db, q, status), LastRank(after, q, status), LastRank(db, q, status));
  }

  lemma PutsCommute<K, V>(m: map<K, V>, a: K, x: V, b: K, y: V)
    requires a != b
    ensures m[a := x][b := y] == m[b := y][a := x]
    ensures m[a := x] - {b} == (m - {b})[a := x]
  {
  }

  /** The step comes to the same before the pending creation's writes as after them. */
  ghost predicate Commutes(db: Db, op: Op, request: Op, number: nat, last: Option<string>)
    requires request.Create?
  {
    Step(Committed(db, request, number, last), op) ==
    Step(db, op).(db := Committed(Step(db, op).db, request, number, last))
  }

  lemma CreateCommutes(db: Db, op: Op, request: Op, number: nat, last: Option<string>)
    requires op.Create? && request.Create? && IsApart(op, request) && request.id !in db.issues
    ensures Commutes(db, op, request, number, last)
  {
    ColumnWithPending(db, request, number, last, op.project, op.input.status);
    if Step(db, op).db != db {
      var row := Committed(db, request, number, last).issues[request.id];
      PutsCommute(db.issues, request.id, row, op.id, Step(db, op).db.issues[op.id]);
      PutsCommute(db.projects, request.project, Project(request.org, number),
                  op.project, Step(db, op).db.projects[op.project]);
    }
  }

  lemma MoveCommutes(db: Db, op: Op, request: Op, number: nat, last: Option<string>)
    requires op.Move? && request.Create? && IsApart(op, request)
    ensures Commutes(db, op, request, number, last)
  {
    if Owns(db, op.org, op.id) && Step(db, op).reply.Success? {
      var row := Committed(db, request, number, last).issues[request.id];
      PutsCommute(db.issues, request.id, row, op.id, Step(db, op).db.issues[op.id]);
    }
  }

  /**
   A request has the same answer, broadcasts and effect before a pending creation's writes as
   after them.
   */
  lemma CommutesWithPending(db: Db, op: Op, request: Op, number: nat, last: Option<string>)
    requires request.Create? && IsApart(op, request) && request.id !in db.issues
    ensures Commutes(db, op, request, number, last) && request.id !in Step(db, op).db.issues
  {
    match op
    case Create(_, _, _, _, _, _) => CreateCommutes(db, op, request, number, last);
    case Move(_, _, _, _) => MoveCommutes(db, op, request, number, last);
    case Update(org, id, _, _) =>
      if Owns(db, org, id) {
        var row := Committed(db, request, number, last).issues[request.id];
        PutsCommute(db.issues, request.id, row, id, Step(db, op).db.issues[id]);
      }
    case Remove(org, id) =>
      if Owns(db, org, id) {
        var row := Committed(db, request, number, last).issues[request.id];
        PutsCommute(db.issues, request.id, row, id, row);
      }
  }

  lemma {:induction false} RunCommutesWithPending(db: Db, ops: seq<Op>, request: Op, number: nat, last: Option<string>)
    requires request.Create? && request.id !in db.issues && forall op | op in ops :: IsApart(op, request)
    ensures Run(Committed(db, request, number, last), ops) == Committed(Run(db, ops), request, number, last)
    decreases |ops|
  {
    if ops != [] {
      assert ops[0] in ops;
      CommutesWithPending(db, ops[0], request, number, last);
      RunCommutesWithPending(Step(db, ops[0]).db, ops[1..], request, number, last);
    }
  }

  /** With nothing in between, the transaction's writes are those of the request on its own. */
  lemma CommittedIsStep(db: Db, request: Op, number: nat, last: Option<string>)
    requires request.Create? && request.id !in db.issues && request.project in db.projects && number > 0
    requires db.projects[request.project] == Project(request.org, number - 1)
    requires last == LastRank(db, request.project, request.input.status)
    ensures Committed(db, request, number, last) == Step(db, request).db
  {
  }

  // ---- runs --------------------------------------------------------------------

  /** Nobody mentions the issue of a transaction that has looked and not ended. */
  ghost predicate Unmentioned(s: State, a: Action) {
    a.Other? ==> forall tx | tx in s.txs && s.txs[tx].Looked? :: !Names(a.op, s.txs[tx].request.id)
  }

  ghost predicate AllUnmentioned(s: State, p: ProjectId, actions: seq<Action>)
    requires AllEnabled(s, p, actions)
    decreases |actions|
  {
    actions == [] || (Unmentioned(s, actions[0]) && AllUnmentioned(Next(s, p, actions[0]), p, actions[1..]))
  }

  /** The tables as the holder saw them. */
  ghost function Seen(s: State, start: Db): Db
    requires s.lookedAt <= |s.effects|
  {
    Run(start, s.effects[..s.lookedAt])
  }

  /** What a transaction that has looked knows of the tables it saw, and of what came after. */
  ghost predicate Pending(s: State, p: ProjectId, start: Db, t: Tx)
    requires s.lookedAt <= |s.effects| && t.Looked? && t.request.Create?
  {
    var seen := Seen(s, start);
    && t.number > 0 && p in seen.projects && seen.projects[p] == Project(t.request.org, t.number - 1)
    && t.last == LastRank(seen, p, t.request.input.status)
    && (t.request.id in seen.issues <==> t.request.id in s.db.issues)
    && (forall op | op in s.effects[s.lookedAt..] :: IsApart(op, t.request))
  }

  ghost predicate Serial(s: State, p: ProjectId, start: Db)
    requires WellTyped(s, p)
  {
    && s.db == Run(start, s.effects)
    && forall tx | tx in s.txs && s.txs[tx].Looked? :: Pending(s, p, start, s.txs[tx])
  }

  lemma NamelessStays(db: Db, op: Op, id: IssueId)
    requires !Names(op, id)
    ensures id in Step(db, op).db.issues <==> id in db.issues
  {
  }

  lemma OtherKeepsSerial(s: State, p: ProjectId, start: Db, op: Op)
    requires Inv(s, p, start) && Serial(s, p, start) && Enabled(s, p, Other(op)) && Unmentioned(s, Other(op))
    ensures WellTyped(Next(s, p, Other(op)), p) && Serial(Next(s, p, Other(op)), p, start)
  {
    var next := Next(s, p, Other(op));
    RunOfConcat(start, s.effects, [op]);
    OneRequest(s.db, op);
    assert next.effects[..s.lookedAt] == s.effects[..s.lookedAt];
    assert next.effects[s.lookedAt..] == s.effects[s.lookedAt..] + [op];
    forall tx | tx in next.txs && next.txs[tx].Looked? ensures Pending(next, p, start, next.txs[tx]) {
      assert Pending(s, p, start, s.txs[tx]);
      NamelessStays(s.db, op, s.txs[tx].request.id);
    }
  }

  lemma LookKeepsSerial(s: State, p: ProjectId, start: Db, tx: TxId)
    requires Inv(s, p, start) && Serial(s, p, start) && Enabled(s, p, Look(tx))
    ensures WellTyped(Next(s, p, Look(tx)), p) && Serial(Next(s, p, Look(tx)), p, start)
  {
    var next := Next(s, p, Look(tx));
    assert s.effects[..|s.effects|] == s.effects;
    assert Seen(next, start) == s.db;
    forall other | other in next.txs && next.txs[other].Looked? ensures other == tx {
      assert next.holder == Some(tx);
    }
  }

  /** The commit moves the request to where its transaction looked. */
  lemma CommitKeepsSerial(s: State, p: ProjectId, start: Db, tx: TxId)
    requires Inv(s, p, start) && Serial(s, p, start) && Enabled(s, p, Commit(tx))
    ensures WellTyped(Next(s, p, Commit(tx)), p) && Serial(Next(s, p, Commit(tx)), p, start)
  {
    var t, next := s.txs[tx], Next(s, p, Commit(tx));
    var front, back := s.effects[..s.lookedAt], s.effects[s.lookedAt..];
    var seen := Seen(s, start);
    assert Pending(s, p, start, t);
    assert s.effects == front + back;
    RunOfConcat(start, front, back);
    CommittedIsStep(seen, t.request, t.number, t.last);
    RunCommutesWithPending(seen, back, t.request, t.number, t.last);
    OneRequest(seen, t.request);
    RunOfConcat(start, front, [t.request]);
    RunOfConcat(start, front + [t.request], back);
    forall other | other in next.txs && next.txs[other].Looked? ensures other == tx {
      assert s.holder == Some(tx);
    }
  }

  lemma ActionKeepsSerial(s: State, p: ProjectId, start: Db, a: Action)
    requires Inv(s, p, start) && Serial(s, p, start) && Enabled(s, p, a) && Unmentioned(s, a)
    ensures WellTyped(Next(s, p, a), p) && Serial(Next(s, p, a), p, start)
  {
    match a
    case Other(op) => OtherKeepsSerial(s, p, start, op);
    case Look(tx) => LookKeepsSerial(s, p, start, tx);
    case Commit(tx) => CommitKeepsSerial(s, p, start, tx);
    case _ => RestKeepsSerial(s, p, start, a);
  }

  lemma RestKeepsSerial(s: State, p: ProjectId, start: Db, a: Action)
    requires Inv(s, p, start) && Serial(s, p, start) && Enabled(s, p, a)
    requires a.Begin? || a.Count? || a.Abort?
    ensures WellTyped(Next(s, p, a), p) && Serial(Next(s, p, a), p, start)
  {
    var next := Next(s, p, a);
    forall tx | tx in next.txs && next.txs[tx].Looked? ensures Pending(next, p, start, next.txs[tx]) {
      assert Pending(s, p, start, s.txs[tx]);
    }
  }

  lemma {:induction false} RunKeepsSerial(s: State, p: ProjectId, start: Db, actions: seq<Action>)
    requires Inv(s, p, start) && Serial(s, p, start) && AllEnabled(s, p, actions) && AllUnmentioned(s, p, actions)
    ensures WellTyped(After(s, p, actions), p) && Serial(After(s, p, actions), p, start)
    decreases |actions|
  {
    if actions != [] {
      ActionKeepsInv(s, p, start, actions[0]);
      ActionKeepsSerial(s, p, start, actions[0]);
      RunKeepsSerial(Next(s, p, actions[0]), p, start, actions[1..]);
    }
  }

  /**
   Every interleaving of create transactions with each other and with all other requests leaves
   the tables that the same requests leave when run one at a time, each creation at the place
   where its transaction looked, provided nobody mentions an issue before it is committed.
   */
  lemma CreatesAreSerializable(db: Db, p: ProjectId, actions: seq<Action>)
    requires AllEnabled(Initial(db), p, actions) && AllUnmentioned(Initial(db), p, actions)
    ensures After(Initial(db), p, actions).db == Run(db, After(Initial(db), p, actions).effects)
  {
    RunKeepsSerial(Initial(db), p, db, actions);
  }

  /** The request an action makes take effect: one committed, or another one. */
  ghost function TakesEffect(s: State, p: ProjectId, a: Action): multiset<Op>
    requires Enabled(s, p, a)
  {
    if a.Commit? then multiset{s.txs[a.tx].request} else if a.Other? then multiset{a.op} else multiset{}
  }

  ghost function TakeEffect(s: State, p: ProjectId, actions: seq<Action>): multiset<Op>
    requires AllEnabled(s, p, actions)
    decreases |actions|
  {
    if actions == [] then multiset{}
    else TakesEffect(s, p, actions[0]) + TakeEffect(Next(s, p, actions[0]), p, actions[1..])
  }

  lemma OneMoreEffect(s: State, p: ProjectId, a: Action)
    requires Enabled(s, p, a) && WellTyped(s, p)
    ensures multiset(Next(s, p, a).effects) == multiset(s.effects) + TakesEffect(s, p, a)
  {
    if a.Commit? {
      assert s.effects == s.effects[..s.lookedAt] + s.effects[s.lookedAt..];
    }
  }

  /** The sequential run is of exactly the requests that took effect, each as often as it did. */
  lemma {:induction false} EffectsAreWhatTookEffect(s: State, p: ProjectId, actions: seq<Action>)
    requires AllEnabled(s, p, actions)
    ensures multiset(After(s, p, actions).effects) == multiset(s.effects) + TakeEffect(s, p, actions)
    decreases |actions|
  {
    if actions != [] {
      OneMoreEffect(s, p, actions[0]);
      EffectsAreWhatTookEffect(Next(s, p, actions[0]), p, actions[1..]);
    }
  }
}
