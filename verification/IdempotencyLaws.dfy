/** Which receipts a call is answered from, told by names, hashes and requests. */
module IdempotencyLaws {
  import opened Options
  import opened Text
  import opened Idempotency

  // One call

  /** A name is refused exactly when its trimmed text is empty or longer than 128 characters. */
  lemma NamesAreBounded(h: Hashes, receipts: seq<Receipt>, c: Call, handled: Option<Payload>)
    ensures CallOutcome(h, receipts, c, handled).reply == Raised(BadName)
       <==> Strip(c.id) == "" || |Strip(c.id)| > 128 || Strip(c.name) == "" || |Strip(c.name)| > 128
  {
  }

  /** The receipt of the command, and no other. */
  predicate OnlyReceipt(receipts: seq<Receipt>, c: Call, i: nat) {
    && i < |receipts| && receipts[i].project == c.project && receipts[i].id == Strip(c.id)
    && forall j | 0 <= j < |receipts| && j != i :: !(receipts[j].project == c.project && receipts[j].id == Strip(c.id))
  }

  /** A call whose command has a receipt writes nothing. It is refused as another command if and only if the
      receipt's name is not its own or the receipt's hash is neither of the two hashes of its own request, and
      otherwise is answered with the receipt's result, once that is completed. */
  lemma ReplayedIffSameRequest(h: Hashes, receipts: seq<Receipt>, c: Call, handled: Option<Payload>, i: nat)
    requires OnlyReceipt(receipts, c, i)
    requires CallOutcome(h, receipts, c, handled).reply != Raised(BadName)
    ensures var o, r, name := CallOutcome(h, receipts, c, handled), receipts[i], Strip(c.name);
            var request, legacy := h.request(name, c.request, c.project), h.legacy(name, c.request);
            var known := r.requestHash == request || r.requestHash == legacy;
            && o.session.receipt == None && o.session.effect == None
            && (o.reply == Raised(KeyReused) <==> r.name != name || !known)
            && (o.reply == Raised(CommandIncomplete) <==> r.name == name && known && r.status.Started?)
            && (forall p :: o.reply == Answered(p) <==> r.name == name && known && r.status == Completed(p))
  {
    hide Strip;
  }

  /** A call whose command has none runs the handler once, and records it under its trimmed names and the hash
      of its own request in its own project. */
  lemma NewCommandIsRecorded(h: Hashes, receipts: seq<Receipt>, c: Call, handled: Option<Payload>)
    requires forall i | 0 <= i < |receipts| :: !(receipts[i].project == c.project && receipts[i].id == Strip(c.id))
    requires CallOutcome(h, receipts, c, handled).reply != Raised(BadName)
    ensures var o := CallOutcome(h, receipts, c, handled);
            && (o.reply == Raised(HandlerRaised) <==> handled == None)
            && (forall p :: o.reply == Answered(p) <==> handled == Some(p))
            && o.session.receipt.Some?
            && var r := o.session.receipt.value;
            && r.project == c.project && r.id == Strip(c.id) && r.name == Strip(c.name)
            && r.requestHash == h.request(Strip(c.name), c.request, c.project)
            && (handled == None ==> r.status == Started && o.session.effect == None)
            && (forall p | handled == Some(p) ::
                  r.status == Completed(p) && o.session.effect == Some(Effect(c.project, Strip(c.id), p)))
  {
    hide Strip;
  }

  // Ends of transactions

  /** Any transaction that has begun and not ended can be rolled back, and then leaves nothing behind but the
      answers already given; once ended it does nothing more. */
  lemma RolledBackLeavesNothing(h: Hashes, s: State, tx: Tx)
    requires tx in s.sessions && s.sessions[tx].pc != Closed
    ensures Enabled(h, s, Rollback(tx))
    ensures var t := Next(h, s, Rollback(tx));
            && t.receipts == s.receipts && t.effects == s.effects && t.answers == s.answers
            && t.sessions == s.sessions[tx := s.sessions[tx].(pc := Closed)]
            && forall k :: k in t.locks <==> k in s.locks && s.locks[k] != tx
  {
  }

  lemma EndedDoesNothing(h: Hashes, s: State, act: Action)
    requires act.tx in s.sessions && s.sessions[act.tx].pc == Closed
    ensures !Enabled(h, s, act)
  {
  }

  // Runs

  /** Different requests have different hashes, and no two hashes of different kinds are equal. */
  ghost predicate HashesApart(h: Hashes) {
    && (forall n, x, p, m, y, q :: h.request(n, x, p) == h.request(m, y, q) ==> n == m && x == y && p == q)
    && (forall n, x, m, y :: h.legacy(n, x) == h.legacy(m, y) ==> n == m && x == y)
    && (forall n, x, p, m, y :: h.request(n, x, p) != h.legacy(m, y))
  }

  lemma SameHashSameRequest(h: Hashes, r: Receipt, c: Call, d: Call)
    requires HashesApart(h) && Accepts(h, r, c) && Accepts(h, r, d)
    ensures c.request == d.request && Strip(c.name) == Strip(d.name)
  {
    hide Strip;
  }

  /** Behind every answer ever given there are one committed receipt and one committed effect of its command, both
      with its result, and the receipt is for its name and request. */
  lemma AnswerIsBacked(h: Hashes, s: State, k: nat) returns (i: nat, j: nat)
    requires Reachable(h, ALL, s) && k < |s.answers|
    ensures i < |s.receipts| && j < |s.effects|
    ensures var a, r, e := s.answers[k], s.receipts[i], s.effects[j];
            && r.project == a.call.project && r.id == Strip(a.call.id) && r.name == Strip(a.call.name)
            && (r.requestHash == h.request(r.name, a.call.request, r.project)
                || r.requestHash == h.legacy(r.name, a.call.request))
            && r.status == Completed(a.result)
            && e.project == r.project && e.id == r.id && e.result == a.result
    ensures forall l | 0 <= l < |s.receipts| && l != i ::
              !(s.receipts[l].project == s.receipts[i].project && s.receipts[l].id == s.receipts[i].id)
    ensures forall l | 0 <= l < |s.effects| && l != j ::
              !(s.effects[l].project == s.effects[j].project && s.effects[l].id == s.effects[j].id)
  {
    hide Strip;
    ReachableKeepsInvariant(h, s);
    assert AnswerIsCommitted(h, s, s.answers[k]);
    i :| 0 <= i < |s.receipts| && i < |s.effects| && AnswersRow(h, s, s.answers[k], i);
    j := i;
    forall l | 0 <= l < |s.receipts| && l != i
      ensures !(s.receipts[l].project == s.receipts[i].project && s.receipts[l].id == s.receipts[i].id)
    {
      assert Covers(s.receipts[l], s.effects[l]) && Covers(s.receipts[i], s.effects[i]);
    }
  }

  /** All answers ever given for one command went to one request. */
  lemma AnswersWentToOneRequest(h: Hashes, s: State, j: nat, k: nat)
    requires HashesApart(h) && Reachable(h, ALL, s) && j < |s.answers| && k < |s.answers|
    requires s.answers[j].call.project == s.answers[k].call.project
    requires Strip(s.answers[j].call.id) == Strip(s.answers[k].call.id)
    ensures s.answers[j].call.request == s.answers[k].call.request && s.answers[j].result == s.answers[k].result
  {
    hide Strip, Accepts, HashesApart;
    ReachableKeepsInvariant(h, s);
    var a, b := s.answers[j], s.answers[k];
    assert AnswerIsCommitted(h, s, a) && AnswerIsCommitted(h, s, b);
    var i :| 0 <= i < |s.receipts| && i < |s.effects| && AnswersRow(h, s, a, i);
    var l :| 0 <= l < |s.receipts| && l < |s.effects| && AnswersRow(h, s, b, l);
    assert i == l;
    SameHashSameRequest(h, s.receipts[i], a.call, b.call);
  }

  /** Once a command was answered, a call under its id with another request or another name is refused. */
  lemma OtherRequestIsRefused(h: Hashes, s: State, j: nat, tx: Tx, act: Action)
    requires HashesApart(h) && Reachable(h, ALL, s) && j < |s.answers| && At(s, tx, Locked)
    requires var c, d := s.answers[j].call, s.sessions[tx].call;
             && c.project == d.project && Strip(c.id) == Strip(d.id)
             && (c.request != d.request || Strip(c.name) != Strip(d.name))
    requires Allowed(h, s, act, ALL) && act.tx == tx && !act.Rollback?
    ensures At(Next(h, s, act), tx, Refused) && Next(h, s, act).answers == s.answers
  {
    hide Strip, HashesApart;
    ReachableKeepsInvariant(h, s);
    var a := s.answers[j];
    assert AnswerIsCommitted(h, s, a);
    var i :| 0 <= i < |s.receipts| && i < |s.effects| && AnswersRow(h, s, a, i);
    CommittedCommandIsNotRerun(h, s, i, tx, act);
    if Accepts(h, s.receipts[i], s.sessions[tx].call) {
      SameHashSameRequest(h, s.receipts[i], a.call, s.sessions[tx].call);
    }
  }
}
