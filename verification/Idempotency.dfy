/** `execute_idempotent` (src/ai_layer/application/commands.py:45-125): one mutation under a durable
    receipt. Any number of transactions interleave statement by statement; each may be rolled back at
    any point, and a client that lost a response retries in a new transaction. */
module Idempotency {
  import opened Options
  import opened Text

  type Tx = nat
  type Request(==, !new)
  type Payload(==, !new)
  /** `None` is a command outside any project. */
  type Project = Option<nat>

  /** One call; `id` and `name` are as the caller wrote them. */
  datatype Call = Call(project: Project, id: string, name: string, request: Request)

  /** The hash functions. None of them is assumed injective. */
  datatype Hashes = Hashes(
    lockKey: (Project, string) -> int,
    request: (string, Request, Project) -> int,
    legacy: (string, Request) -> int)

  datatype Status = Started | Completed(result: Payload)

  datatype Receipt = Receipt(project: Project, id: string, name: string, requestHash: int, status: Status)

  /** What one run of the handler did. */
  datatype Effect = Effect(project: Project, id: string, result: Payload)

  /** A response that `execute_idempotent` gave to `call`. */
  datatype Answer = Answer(call: Call, result: Payload)

  datatype Pc = Waiting | Locked | Begun | Handled | Returned | Refused | Incomplete | Closed

  /** A transaction: its call, where it stands, and what it has written but not committed. */
  datatype Session = Session(call: Call, pc: Pc, receipt: Option<Receipt>, effect: Option<Effect>)

  /** The committed tables, the advisory locks held, the transactions, and every answer given. No
      unique constraint is assumed: the one in the schema does not bind commands without a project. */
  datatype State = State(
    receipts: seq<Receipt>,
    effects: seq<Effect>,
    locks: map<int, Tx>,
    sessions: map<Tx, Session>,
    answers: seq<Answer>)

  const INITIAL := State([], [], map[], map[], [])

  predicate Acceptable(s: string) { 1 <= |Strip(s)| <= 128 }

  datatype Action =
    | Begin(tx: Tx, call: Call)
    | Acquire(tx: Tx)
    | Load(tx: Tx, row: nat)
    | Insert(tx: Tx)
    | Handle(tx: Tx, result: Payload)
    | Complete(tx: Tx)
    | Commit(tx: Tx)
    | Rollback(tx: Tx)

  predicate Matches(r: Receipt, c: Call) { r.project == c.project && r.id == Strip(c.id) }

  predicate NoReceipt(s: State, c: Call) {
    forall i | 0 <= i < |s.receipts| :: !Matches(s.receipts[i], c)
  }

  predicate At(s: State, tx: Tx, pc: Pc) { tx in s.sessions && s.sessions[tx].pc == pc }

  function KeyOf(h: Hashes, c: Call): int { h.lockKey(c.project, Strip(c.id)) }

  predicate Open(pc: Pc) { pc != Closed }

  /** May the statement run now? `Load` may return any matching row; `Insert` follows a query that returned none. */
  predicate Enabled(h: Hashes, s: State, act: Action) {
    match act
    case Begin(tx, call) => tx !in s.sessions
    case Acquire(tx) => At(s, tx, Waiting)
    case Load(tx, row) => At(s, tx, Locked) && row < |s.receipts| && Matches(s.receipts[row], s.sessions[tx].call)
    case Insert(tx) => At(s, tx, Locked)
    case Handle(tx, result) => At(s, tx, Begun)
    case Complete(tx) => At(s, tx, Handled) && s.sessions[tx].effect.Some? && s.sessions[tx].receipt.Some?
    case Commit(tx) => tx in s.sessions && Open(s.sessions[tx].pc)
    case Rollback(tx) => tx in s.sessions && Open(s.sessions[tx].pc)
  }

  function Hashed(h: Hashes, c: Call): int { h.request(Strip(c.name), c.request, c.project) }

  predicate Accepts(h: Hashes, r: Receipt, c: Call) {
    r.name == Strip(c.name) && (r.requestHash == Hashed(h, c) || r.requestHash == h.legacy(Strip(c.name), c.request))
  }

  function Move(s: State, tx: Tx, x: Session): State { s.(sessions := s.sessions[tx := x]) }

  function OrNothing<T>(o: Option<T>): (r: seq<T>)
    ensures |r| <= 1
  {
    if o.Some? then [o.value] else []
  }

  function Released(s: State, tx: Tx): map<int, Tx> {
    map k | k in s.locks && s.locks[k] != tx :: s.locks[k]
  }

  function Next(h: Hashes, s: State, act: Action): State
    requires Enabled(h, s, act)
  {
    match act
    case Begin(tx, call) =>
      Move(s, tx, Session(call, if Acceptable(call.id) && Acceptable(call.name) then Waiting else Refused, None, None))
    case Acquire(tx) =>
      var x := s.sessions[tx];
      Move(s, tx, x.(pc := Locked)).(locks := s.locks[KeyOf(h, x.call) := tx])
    case Load(tx, row) =>
      var x := s.sessions[tx];
      var r := s.receipts[row];
      if !Accepts(h, r, x.call) then Move(s, tx, x.(pc := Refused))
      else if r.status.Completed? then
        Move(s, tx, x.(pc := Returned)).(answers := s.answers + [Answer(x.call, r.status.result)])
      else Move(s, tx, x.(pc := Incomplete))
    case Insert(tx) =>
      var x := s.sessions[tx];
      Move(s, tx, x.(pc := Begun, receipt := Some(Receipt(x.call.project, Strip(x.call.id), Strip(x.call.name),
          Hashed(h, x.call), Started))))
    case Handle(tx, result) =>
      var x := s.sessions[tx];
      Move(s, tx, x.(pc := Handled, effect := Some(Effect(x.call.project, Strip(x.call.id), result))))
    case Complete(tx) =>
      var x := s.sessions[tx];
      Move(s, tx, x.(pc := Returned, receipt := Some(x.receipt.value.(status := Completed(x.effect.value.result)))))
    case Commit(tx) =>
      var x := s.sessions[tx];
      State(
        s.receipts + OrNothing(x.receipt), s.effects + OrNothing(x.effect), Released(s, tx),
        s.sessions[tx := x.(pc := Closed)],
        s.answers + (if x.effect.Some? then [Answer(x.call, x.effect.value.result)] else []))
    case Rollback(tx) =>
      State(s.receipts, s.effects, Released(s, tx), s.sessions[tx := s.sessions[tx].(pc := Closed)], s.answers)
  }

  // The hypotheses, each a predicate of a step

  datatype Hypothesis =
    | AdvisoryLock    // `pg_advisory_xact_lock` waits while another transaction holds the key
    | ErrorsRollBack  // the caller commits only after `execute_idempotent` returned
    | ReadCommitted   // the query after the lock wait sees every row committed by then

  const ALL: set<Hypothesis> := {AdvisoryLock, ErrorsRollBack, ReadCommitted}

  predicate Free(h: Hashes, s: State, tx: Tx) {
    tx in s.sessions && (KeyOf(h, s.sessions[tx].call) in s.locks ==> s.locks[KeyOf(h, s.sessions[tx].call)] == tx)
  }

  predicate Respects(h: Hashes, s: State, act: Action, hyp: Hypothesis) {
    match hyp
    case AdvisoryLock => act.Acquire? ==> Free(h, s, act.tx)
    case ErrorsRollBack => act.Commit? ==> At(s, act.tx, Returned)
    case ReadCommitted => act.Insert? && act.tx in s.sessions ==> NoReceipt(s, s.sessions[act.tx].call)
  }

  predicate Allowed(h: Hashes, s: State, act: Action, hyps: set<Hypothesis>) {
    Enabled(h, s, act) && forall hyp | hyp in hyps :: Respects(h, s, act, hyp)
  }

  /** The state after a run of allowed statements. */
  ghost predicate Runs(h: Hashes, hyps: set<Hypothesis>, s: State, acts: seq<Action>, t: State)
    decreases |acts|
  {
    if acts == [] then s == t
    else Allowed(h, s, acts[0], hyps) && Runs(h, hyps, Next(h, s, acts[0]), acts[1..], t)
  }

  ghost predicate Reachable(h: Hashes, hyps: set<Hypothesis>, s: State) {
    exists acts :: Runs(h, hyps, INITIAL, acts, s)
  }

  // What the protocol promises

  predicate SameCommand(project: Project, id: string, c: Call) { project == c.project && id == Strip(c.id) }

  predicate AtMostOneEffect(s: State) {
    forall i, j | 0 <= i < j < |s.effects| ::
      !(s.effects[i].project == s.effects[j].project && s.effects[i].id == s.effects[j].id)
  }

  ghost predicate HasEffect(s: State, c: Call) {
    exists i :: 0 <= i < |s.effects| && SameCommand(s.effects[i].project, s.effects[i].id, c)
  }

  ghost predicate HasCompletedReceipt(s: State, c: Call) {
    exists i :: 0 <= i < |s.receipts| && Matches(s.receipts[i], c) && s.receipts[i].status.Completed?
  }

  ghost predicate EffectIffReceipt(s: State) {
    forall c :: HasEffect(s, c) <==> HasCompletedReceipt(s, c)
  }

  predicate NoneIncomplete(s: State) {
    forall tx | tx in s.sessions :: s.sessions[tx].pc != Incomplete
  }

  /** The answer is the result of the one committed effect of its command. */
  ghost predicate AnswerIsCommitted(h: Hashes, s: State, a: Answer) {
    exists i :: 0 <= i < |s.receipts| && i < |s.effects| && AnswersRow(h, s, a, i)
  }

  predicate AnswersRow(h: Hashes, s: State, a: Answer, i: nat)
    requires i < |s.receipts| && i < |s.effects|
  {
    && Matches(s.receipts[i], a.call) && Accepts(h, s.receipts[i], a.call)
    && s.receipts[i].status == Completed(a.result)
    && s.effects[i] == Effect(a.call.project, Strip(a.call.id), a.result)
  }

  ghost predicate AnswersAreCommitted(h: Hashes, s: State) {
    forall k | 0 <= k < |s.answers| :: AnswerIsCommitted(h, s, s.answers[k])
  }

  ghost predicate ExactlyOnce(h: Hashes, s: State) {
    AtMostOneEffect(s) && EffectIffReceipt(s) && NoneIncomplete(s) && AnswersAreCommitted(h, s)
  }

  // The invariant

  predicate Owns(pc: Pc) { pc == Locked || pc == Begun || pc == Handled || pc == Returned }

  predicate ReceiptOf(h: Hashes, x: Session, status: Status) {
    x.receipt == Some(Receipt(x.call.project, Strip(x.call.id), Strip(x.call.name), Hashed(h, x.call), status))
  }

  predicate EffectOf(x: Session) {
    x.effect.Some? && SameCommand(x.effect.value.project, x.effect.value.id, x.call)
  }

  predicate Unwritten(x: Session) { x.receipt == None && x.effect == None }

  predicate SessionOk(h: Hashes, s: State, tx: Tx)
    requires tx in s.sessions
  {
    var x := s.sessions[tx];
    && (Owns(x.pc) ==> KeyOf(h, x.call) in s.locks && s.locks[KeyOf(h, x.call)] == tx)
    && match x.pc {
         case Waiting => Unwritten(x)
         case Locked => Unwritten(x)
         case Begun => ReceiptOf(h, x, Started) && x.effect == None && NoReceipt(s, x.call)
         case Handled => ReceiptOf(h, x, Started) && EffectOf(x) && NoReceipt(s, x.call)
         case Returned =>
           Unwritten(x)
           || (EffectOf(x) && ReceiptOf(h, x, Completed(x.effect.value.result)) && NoReceipt(s, x.call))
         case Refused => Unwritten(x)
         case Incomplete => false
         case Closed => true
       }
  }

  /** Row by row, a receipt and the effect it covers. */
  predicate Paired(s: State) {
    && |s.receipts| == |s.effects|
    && forall i | 0 <= i < |s.receipts| :: Covers(s.receipts[i], s.effects[i])
  }

  predicate Covers(r: Receipt, e: Effect) {
    e.project == r.project && e.id == r.id && r.status == Completed(e.result)
  }

  ghost predicate Invariant(h: Hashes, s: State) {
    && AtMostOneEffect(s) && Paired(s) && AnswersAreCommitted(h, s)
    && forall tx | tx in s.sessions :: SessionOk(h, s, tx)
  }

  lemma AnswersAreKept(h: Hashes, s: State, t: State, a: Answer)
    requires AnswerIsCommitted(h, s, a)
    requires s.receipts <= t.receipts && s.effects <= t.effects
    ensures AnswerIsCommitted(h, t, a)
  {
    var i :| 0 <= i < |s.receipts| && i < |s.effects| && AnswersRow(h, s, a, i);
    assert AnswersRow(h, t, a, i);
  }

  lemma AnswersStepKept(h: Hashes, s: State, act: Action)
    requires Invariant(h, s) && Allowed(h, s, act, ALL)
    ensures AnswersAreCommitted(h, Next(h, s, act))
  {
    var t := Next(h, s, act);
    assert Respects(h, s, act, ErrorsRollBack);
    assert act.Begin? || SessionOk(h, s, act.tx);
    forall k | 0 <= k < |t.answers| ensures AnswerIsCommitted(h, t, t.answers[k]) {
      if k < |s.answers| {
        AnswersAreKept(h, s, t, s.answers[k]);
      } else {
        var row := if act.Load? then act.row else |s.receipts|;
        assert act.Load? ==> Covers(s.receipts[row], s.effects[row]);
        assert AnswersRow(h, t, t.answers[k], row);
      }
    }
  }

  /** A commit adds the first row of its command. */
  lemma RowsStepKept(h: Hashes, s: State, act: Action)
    requires Invariant(h, s) && Allowed(h, s, act, ALL)
    ensures AtMostOneEffect(Next(h, s, act)) && Paired(Next(h, s, act))
  {
    assert Respects(h, s, act, ErrorsRollBack);
    assert act.Begin? || SessionOk(h, s, act.tx);
    if act.Commit? {
      forall i | 0 <= i < |s.receipts|
        ensures !Matches(s.receipts[i], s.sessions[act.tx].call) || Unwritten(s.sessions[act.tx])
      {
        assert Covers(s.receipts[i], s.effects[i]);
      }
    }
  }

  /** Another transaction holds another lock, so no receipt that it waits for appears. */
  lemma OtherSessionKept(h: Hashes, s: State, act: Action, tx: Tx)
    requires Invariant(h, s) && Allowed(h, s, act, ALL) && tx in s.sessions && tx != act.tx
    ensures SessionOk(h, Next(h, s, act), tx)
  {
    hide AnswersAreCommitted, Paired, AtMostOneEffect, Strip;
    assert Respects(h, s, act, ErrorsRollBack) && Respects(h, s, act, AdvisoryLock)
        && Respects(h, s, act, ReadCommitted);
    assert SessionOk(h, s, tx);
    assert act.Begin? || SessionOk(h, s, act.tx);
  }

  lemma SessionStepKept(h: Hashes, s: State, act: Action, tx: Tx)
    requires Invariant(h, s) && Allowed(h, s, act, ALL) && tx in Next(h, s, act).sessions
    ensures SessionOk(h, Next(h, s, act), tx)
  {
    hide AnswersAreCommitted, AtMostOneEffect, Strip;
    assert Respects(h, s, act, ErrorsRollBack) && Respects(h, s, act, AdvisoryLock)
        && Respects(h, s, act, ReadCommitted);
    assert act.Begin? || SessionOk(h, s, act.tx);
    if tx != act.tx {
      OtherSessionKept(h, s, act, tx);
    } else if act.Load? {
      assert Covers(s.receipts[act.row], s.effects[act.row]);
    }
  }

  lemma {:induction false} RunKeepsInvariant(h: Hashes, s: State, acts: seq<Action>, t: State)
    requires Invariant(h, s) && Runs(h, ALL, s, acts, t)
    ensures Invariant(h, t)
    decreases |acts|
  {
    if acts != [] {
      var u := Next(h, s, acts[0]);
      RowsStepKept(h, s, acts[0]);
      AnswersStepKept(h, s, acts[0]);
      forall tx | tx in u.sessions ensures SessionOk(h, u, tx) {
        SessionStepKept(h, s, acts[0], tx);
      }
      RunKeepsInvariant(h, u, acts[1..], t);
    }
  }

  lemma ReachableKeepsInvariant(h: Hashes, s: State)
    requires Reachable(h, ALL, s)
    ensures Invariant(h, s)
  {
    var acts :| Runs(h, ALL, INITIAL, acts, s);
    RunKeepsInvariant(h, INITIAL, acts, s);
  }

  // The theorems

  /** Over all interleavings, rollbacks and retries: a command has at most one committed effect, has
      one exactly when its completed receipt is committed, and every answer ever given for it is the
      result of that effect. No incomplete receipt is ever seen. */
  lemma EveryRunIsExactlyOnce(h: Hashes, s: State)
    requires Reachable(h, ALL, s)
    ensures ExactlyOnce(h, s)
  {
    ReachableKeepsInvariant(h, s);
    forall c ensures HasEffect(s, c) <==> HasCompletedReceipt(s, c) {
      if HasEffect(s, c) {
        var i :| 0 <= i < |s.effects| && SameCommand(s.effects[i].project, s.effects[i].id, c);
        assert Covers(s.receipts[i], s.effects[i]) && Matches(s.receipts[i], c);
      }
      if HasCompletedReceipt(s, c) {
        var i :| 0 <= i < |s.receipts| && Matches(s.receipts[i], c) && s.receipts[i].status.Completed?;
        assert Covers(s.receipts[i], s.effects[i]) && SameCommand(s.effects[i].project, s.effects[i].id, c);
      }
    }
    forall tx | tx in s.sessions ensures s.sessions[tx].pc != Incomplete {
      assert SessionOk(h, s, tx);
    }
  }

  /** Any two answers for one command, however far apart, are the same and went to the same command name. */
  lemma AnswersAgree(h: Hashes, s: State, j: nat, k: nat)
    requires Reachable(h, ALL, s) && j < |s.answers| && k < |s.answers|
    requires s.answers[j].call.project == s.answers[k].call.project
    requires Strip(s.answers[j].call.id) == Strip(s.answers[k].call.id)
    ensures s.answers[j].result == s.answers[k].result
    ensures Strip(s.answers[j].call.name) == Strip(s.answers[k].call.name)
  {
    ReachableKeepsInvariant(h, s);
    var a, b := s.answers[j], s.answers[k];
    assert AnswerIsCommitted(h, s, a) && AnswerIsCommitted(h, s, b);
    var i :| 0 <= i < |s.receipts| && i < |s.effects| && AnswersRow(h, s, a, i);
    var l :| 0 <= l < |s.receipts| && l < |s.effects| && AnswersRow(h, s, b, l);
    assert i == l;
  }

  /** Once a command's receipt is committed, a transaction with the lock can only answer from it; a
      different command under the same id can only be refused. Neither writes anything. */
  lemma CommittedCommandIsNotRerun(h: Hashes, s: State, row: nat, tx: Tx, act: Action)
    requires Reachable(h, ALL, s) && At(s, tx, Locked)
    requires row < |s.receipts| && Matches(s.receipts[row], s.sessions[tx].call)
    requires Allowed(h, s, act, ALL) && act.tx == tx && !act.Rollback?
    ensures s.receipts[row].status.Completed?
    ensures var t, c, r := Next(h, s, act), s.sessions[tx].call, s.receipts[row];
            var request, legacy := h.request(Strip(c.name), c.request, c.project), h.legacy(Strip(c.name), c.request);
            && t.receipts == s.receipts && t.effects == s.effects && Unwritten(t.sessions[tx])
            && if r.name == Strip(c.name) && (r.requestHash == request || r.requestHash == legacy)
               then At(t, tx, Returned) && t.answers == s.answers + [Answer(c, r.status.result)]
               else At(t, tx, Refused) && t.answers == s.answers
  {
    ReachableKeepsInvariant(h, s);
    assert Respects(h, s, act, ErrorsRollBack) && Respects(h, s, act, ReadCommitted) && SessionOk(h, s, tx)
        && Covers(s.receipts[row], s.effects[row]);
    if act.Load? {
      assert Covers(s.receipts[act.row], s.effects[act.row]);
      assert act.row == row;
    }
  }

  /** Committed receipts, effects and answers are never altered or withdrawn. */
  lemma {:induction false} HistoryIsKept(h: Hashes, hyps: set<Hypothesis>, s: State, acts: seq<Action>, t: State)
    requires Runs(h, hyps, s, acts, t)
    ensures s.receipts <= t.receipts && s.effects <= t.effects && s.answers <= t.answers
    decreases |acts|
  {
    if acts != [] {
      HistoryIsKept(h, hyps, Next(h, s, acts[0]), acts[1..], t);
    }
  }

  // The call itself

  /** The row `_load_receipt` returns; in a reachable state there is at most one. */
  function FirstRow(receipts: seq<Receipt>, c: Call): (r: Option<nat>)
    ensures r.Some? ==> r.value < |receipts| && Matches(receipts[r.value], c)
    ensures r.None? ==> forall i | 0 <= i < |receipts| :: !Matches(receipts[i], c)
  {
    if receipts == [] then None
    else
      var r := FirstRow(receipts[..|receipts| - 1], c);
      if r.Some? then r
      else if Matches(receipts[|receipts| - 1], c) then Some(|receipts| - 1)
      else None
  }

  /** The statements of one uninterrupted call; `handled` is the handler's result, `None` if it raises. */
  function Script(s: State, tx: Tx, c: Call, handled: Option<Payload>): seq<Action> {
    if !Acceptable(c.id) || !Acceptable(c.name) then [Begin(tx, c)]
    else if FirstRow(s.receipts, c).Some? then [Begin(tx, c), Acquire(tx), Load(tx, FirstRow(s.receipts, c).value)]
    else if handled.None? then [Begin(tx, c), Acquire(tx), Insert(tx)]
    else [Begin(tx, c), Acquire(tx), Insert(tx), Handle(tx, handled.value), Complete(tx)]
  }

  datatype Reply = Answered(result: Payload) | Raised(why: Refusal)
  datatype Refusal = BadName | KeyReused | CommandIncomplete | HandlerRaised

  /** What a call has written when it is over, and its reply. */
  datatype Called = Called(session: Session, reply: Reply)

  function ReceiptFor(h: Hashes, c: Call, status: Status): Receipt {
    Receipt(c.project, Strip(c.id), Strip(c.name), Hashed(h, c), status)
  }

  function CallOutcome(h: Hashes, receipts: seq<Receipt>, c: Call, handled: Option<Payload>): Called {
    var row := FirstRow(receipts, c);
    if !Acceptable(c.id) || !Acceptable(c.name) then Called(Session(c, Refused, None, None), Raised(BadName))
    else if row.Some? then
      if !Accepts(h, receipts[row.value], c) then Called(Session(c, Refused, None, None), Raised(KeyReused))
      else if receipts[row.value].status.Completed? then
        Called(Session(c, Returned, None, None), Answered(receipts[row.value].status.result))
      else Called(Session(c, Incomplete, None, None), Raised(CommandIncomplete))
    else if handled.None? then Called(Session(c, Begun, Some(ReceiptFor(h, c, Started)), None), Raised(HandlerRaised))
    else
      Called(Session(c, Returned, Some(ReceiptFor(h, c, Completed(handled.value))),
                     Some(Effect(c.project, Strip(c.id), handled.value))),
             Answered(handled.value))
  }

  class Transaction {
    var pc: Pc
    var receipt: Option<Receipt>
    var effect: Option<Effect>

    constructor ()
      ensures pc == Waiting && receipt == None && effect == None
    {
      pc, receipt, effect := Waiting, None, None;
    }

    /** `execute_idempotent` with the advisory lock held, on the rows committed so far. */
    method ExecuteIdempotent(h: Hashes, receipts: seq<Receipt>, c: Call, handled: Option<Payload>)
      returns (reply: Reply)
      requires pc == Waiting && receipt == None && effect == None
      modifies this
      ensures Called(Session(c, pc, receipt, effect), reply) == CallOutcome(h, receipts, c, handled)
    {
      hide Strip;
      if !Acceptable(c.id) || !Acceptable(c.name) {
        pc := Refused;
        return Raised(BadName);
      }
      var row := FirstRow(receipts, c);
      if row.Some? {
        var found := receipts[row.value];
        if !Accepts(h, found, c) {
          pc := Refused;
          return Raised(KeyReused);
        }
        if found.status.Completed? {
          pc := Returned;
          return Answered(found.status.result);
        }
        pc := Incomplete;
        return Raised(CommandIncomplete);
      }
      var added := Receipt(c.project, Strip(c.id), Strip(c.name), Hashed(h, c), Started);
      receipt := Some(added);
      pc := Begun;
      if handled.None? {
        return Raised(HandlerRaised);
      }
      effect := Some(Effect(c.project, Strip(c.id), handled.value));
      receipt := Some(added.(status := Completed(handled.value)));
      pc := Returned;
      return Answered(handled.value);
    }
  }

  lemma {:induction false} RunExtends(h: Hashes, hyps: set<Hypothesis>, s: State, acts: seq<Action>, t: State,
                                      act: Action)
    requires Runs(h, hyps, s, acts, t) && Allowed(h, t, act, hyps)
    ensures Runs(h, hyps, s, acts + [act], Next(h, t, act))
    decreases |acts|
  {
    if acts != [] {
      assert (acts + [act])[1..] == acts[1..] + [act];
      RunExtends(h, hyps, Next(h, s, acts[0]), acts[1..], t, act);
    } else {
      assert acts + [act] == [act];
    }
  }

  lemma Then(h: Hashes, s: State, acts: seq<Action>, t: State, act: Action) returns (acts': seq<Action>, t': State)
    requires Runs(h, ALL, s, acts, t) && Allowed(h, t, act, ALL)
    ensures acts' == acts + [act] && t' == Next(h, t, act) && Runs(h, ALL, s, acts', t')
  {
    RunExtends(h, ALL, s, acts, t, act);
    acts', t' := acts + [act], Next(h, t, act);
  }

  lemma BeginAlone(h: Hashes, s: State, tx: Tx, c: Call) returns (t: State)
    requires tx !in s.sessions
    ensures t == Next(h, s, Begin(tx, c)) && Runs(h, ALL, s, [Begin(tx, c)], t)
  {
    t := Next(h, s, Begin(tx, c));
    assert Runs(h, ALL, t, [], t);
    assert [Begin(tx, c)][1..] == [];
  }

  lemma LockTaken(h: Hashes, s: State, tx: Tx, c: Call) returns (t: State)
    requires tx !in s.sessions && KeyOf(h, c) !in s.locks && Acceptable(c.id) && Acceptable(c.name)
    ensures Runs(h, ALL, s, [Begin(tx, c), Acquire(tx)], t)
    ensures t.receipts == s.receipts && t.effects == s.effects && t.answers == s.answers
    ensures tx in t.sessions && t.sessions[tx] == Session(c, Locked, None, None)
  {
    hide Runs, Strip;
    t := BeginAlone(h, s, tx, c);
    var acts;
    acts, t := Then(h, s, [Begin(tx, c)], t, Acquire(tx));
    assert acts == [Begin(tx, c), Acquire(tx)];
  }

  lemma HandlerRun(h: Hashes, s: State, acts: seq<Action>, u: State, tx: Tx, c: Call, result: Payload)
    returns (t: State)
    requires Runs(h, ALL, s, acts, u) && tx in u.sessions
    requires u.sessions[tx] == Session(c, Begun, Some(ReceiptFor(h, c, Started)), None)
    ensures Runs(h, ALL, s, acts + [Handle(tx, result), Complete(tx)], t)
    ensures t.receipts == u.receipts && t.effects == u.effects && t.answers == u.answers && tx in t.sessions
    ensures t.sessions[tx] == Session(c, Returned, Some(ReceiptFor(h, c, Completed(result))),
        Some(Effect(c.project, Strip(c.id), result)))
  {
    hide Runs, Strip;
    var acts';
    acts', t := Then(h, s, acts, u, Handle(tx, result));
    acts', t := Then(h, s, acts', t, Complete(tx));
    assert acts' == acts + [Handle(tx, result), Complete(tx)];
  }

  /** An uninterrupted call in the machine: its statements lead exactly to the call's outcome, and only a
      replay gives an answer before the commit. */
  lemma CallIsItsScript(h: Hashes, s: State, tx: Tx, c: Call, handled: Option<Payload>) returns (t: State)
    requires tx !in s.sessions && KeyOf(h, c) !in s.locks
    ensures Runs(h, ALL, s, Script(s, tx, c, handled), t)
    ensures var o := CallOutcome(h, s.receipts, c, handled);
            && tx in t.sessions && t.sessions[tx] == o.session && t.receipts == s.receipts && t.effects == s.effects
            && t.answers == if o.reply.Answered? && o.session.effect.None? then s.answers + [Answer(c, o.reply.result)]
                else s.answers
  {
    hide Runs, Strip, Acceptable;
    if !Acceptable(c.id) || !Acceptable(c.name) {
      t := BeginAlone(h, s, tx, c);
    } else {
      t := LockTaken(h, s, tx, c);
      var acts := [Begin(tx, c), Acquire(tx)];
      var row := FirstRow(s.receipts, c);
      acts, t := Then(h, s, acts, t, if row.Some? then Load(tx, row.value) else Insert(tx));
      if row.None? && handled.Some? {
        t := HandlerRun(h, s, acts, t, tx, c, handled.value);
        acts := acts + [Handle(tx, handled.value), Complete(tx)];
      }
      assert acts == Script(s, tx, c, handled);
    }
  }

  // Each hypothesis is needed

  lemma Go(h: Hashes, hyps: set<Hypothesis>, s: State, act: Action) returns (t: State)
    requires Reachable(h, hyps, s) && Allowed(h, s, act, hyps)
    ensures t == Next(h, s, act) && Reachable(h, hyps, t)
  {
    var acts :| Runs(h, hyps, INITIAL, acts, s);
    RunExtends(h, hyps, INITIAL, acts, s, act);
    t := Next(h, s, act);
  }

  lemma Start(h: Hashes, hyps: set<Hypothesis>) returns (s: State)
    ensures s == INITIAL && Reachable(h, hyps, s)
  {
    s := INITIAL;
    assert Runs(h, hyps, INITIAL, [], s);
  }

  lemma Execute(h: Hashes, hyps: set<Hypothesis>, s: State, tx: Tx, p: Payload) returns (t: State)
    requires Reachable(h, hyps, s) && At(s, tx, Locked)
    requires ReadCommitted in hyps ==> NoReceipt(s, s.sessions[tx].call)
    ensures Reachable(h, hyps, t) && At(t, tx, Returned) && t.receipts == s.receipts && t.effects == s.effects
    ensures t.sessions.Keys == s.sessions.Keys
    ensures forall u | u in s.sessions && u != tx :: t.sessions[u] == s.sessions[u]
    ensures EffectOf(t.sessions[tx]) && t.sessions[tx].call == s.sessions[tx].call && t.locks == s.locks
  {
    hide Reachable;
    t := Go(h, hyps, s, Insert(tx));
    t := Go(h, hyps, t, Handle(tx, p));
    t := Go(h, hyps, t, Complete(tx));
  }

  ghost predicate Fails(h: Hashes, hyps: set<Hypothesis>) {
    exists s :: Reachable(h, hyps, s) && !ExactlyOnce(h, s)
  }

  lemma BeginAndAcquire(h: Hashes, hyps: set<Hypothesis>, s: State, tx: Tx, c: Call) returns (t: State)
    requires Reachable(h, hyps, s) && tx !in s.sessions && Acceptable(c.id) && Acceptable(c.name)
    requires AdvisoryLock in hyps ==> KeyOf(h, c) !in s.locks
    ensures Reachable(h, hyps, t) && At(t, tx, Locked) && t.sessions[tx].call == c
    ensures t.receipts == s.receipts && t.effects == s.effects
    ensures t.sessions.Keys == s.sessions.Keys + {tx} && forall u | u in s.sessions :: t.sessions[u] == s.sessions[u]
    ensures t.locks == s.locks[KeyOf(h, c) := tx]
  {
    hide Reachable;
    t := Go(h, hyps, s, Begin(tx, c));
    t := Go(h, hyps, t, Acquire(tx));
  }

  /** Two transactions find no receipt and both execute. */
  lemma WithoutTheLock(h: Hashes, c: Call, p: Payload)
    requires Acceptable(c.id) && Acceptable(c.name)
    ensures Fails(h, ALL - {AdvisoryLock})
  {
    hide Reachable;
    var hyps := ALL - {AdvisoryLock};
    var s := Start(h, hyps);
    s := BeginAndAcquire(h, hyps, s, 0, c);
    s := BeginAndAcquire(h, hyps, s, 1, c);
    s := Execute(h, hyps, s, 0, p);
    s := Execute(h, hyps, s, 1, p);
    s := Go(h, hyps, s, Commit(0));
    s := Go(h, hyps, s, Commit(1));
    assert s.effects[0].project == s.effects[1].project && s.effects[0].id == s.effects[1].id;
  }

  /** A caller commits although the handler raised; the next call of the command can never finish. */
  lemma WithoutRollback(h: Hashes, c: Call)
    requires Acceptable(c.id) && Acceptable(c.name)
    ensures Fails(h, ALL - {ErrorsRollBack})
  {
    hide Reachable;
    var hyps := ALL - {ErrorsRollBack};
    var s := Start(h, hyps);
    s := BeginAndAcquire(h, hyps, s, 0, c);
    s := Go(h, hyps, s, Insert(0));
    s := Go(h, hyps, s, Commit(0));
    assert s.locks == map[];
    s := BeginAndAcquire(h, hyps, s, 1, c);
    s := Go(h, hyps, s, Load(1, 0));
    assert s.sessions[1].pc == Incomplete && !NoneIncomplete(s);
  }

  /** A query that reads an older snapshot does not see the receipt, and the command is executed again. */
  lemma WithoutFreshReads(h: Hashes, c: Call, p: Payload)
    requires Acceptable(c.id) && Acceptable(c.name)
    ensures Fails(h, ALL - {ReadCommitted})
  {
    hide Reachable;
    var hyps := ALL - {ReadCommitted};
    var s := Start(h, hyps);
    s := BeginAndAcquire(h, hyps, s, 0, c);
    s := Execute(h, hyps, s, 0, p);
    s := Go(h, hyps, s, Commit(0));
    assert s.locks == map[];
    s := BeginAndAcquire(h, hyps, s, 1, c);
    s := Execute(h, hyps, s, 1, p);
    s := Go(h, hyps, s, Commit(1));
    assert s.effects[0].project == s.effects[1].project && s.effects[0].id == s.effects[1].id;
  }

  /** Commands are executed exactly once in every run under the three hypotheses, and under no two of them. */
  lemma HypothesesAreExact(h: Hashes, c: Call, p: Payload, hyp: Hypothesis)
    requires Acceptable(c.id) && Acceptable(c.name)
    ensures !Fails(h, ALL)
    ensures Fails(h, ALL - {hyp})
  {
    forall s | Reachable(h, ALL, s) ensures ExactlyOnce(h, s) {
      EveryRunIsExactlyOnce(h, s);
    }
    match hyp {
      case AdvisoryLock => WithoutTheLock(h, c, p);
      case ErrorsRollBack => WithoutRollback(h, c);
      case ReadCommitted => WithoutFreshReads(h, c, p);
    }
  }
}
