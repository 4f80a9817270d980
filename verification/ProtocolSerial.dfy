/** Serializability: every interleaving has the outcomes and balances of the
    serial history in its log, where each access check takes effect at once. */
module ProtocolSerial {
  import opened Wrappers
  import opened RateStates
  import opened AccessKeys
  import opened Profiles
  import opened Protocol
  import opened ProtocolLocks

  // ---------- the serial meaning of a history ----------

  predicate InStore(us: seq<Update>, n: nat) {
    forall j :: 0 <= j < |us| ==> us[j].handle < n
  }

  /** The answer of one undisturbed access check, from its `i`-th update on. */
  function SerialAnswer(cs: seq<Counter>, plan: Plan, i: nat): Option<Denial>
    requires InStore(plan.updates, |cs|)
    decreases |plan.updates| - i
  {
    if i >= |plan.updates| then None
    else
      var u := plan.updates[i];
      match CheckWithdraw(cs[u.handle], u.amount, plan.now, u.rule)
      case Err(e) => Some(Refused(e, u.context))
      case Ok(_) => SerialAnswer(cs, plan, i + 1)
  }

  function Debited(c: Counter, plan: Plan, u: Update): Counter {
    if CheckWithdraw(c, u.amount, plan.now, u.rule).Ok? then Withdrawn(c, u.amount, plan.now, u.rule) else c
  }

  /** Each of the updates from the `i`-th on debited by exactly its amount. */
  function SerialDebit(cs: seq<Counter>, plan: Plan, i: nat): (r: seq<Counter>)
    requires InStore(plan.updates, |cs|)
    ensures |r| == |cs|
    decreases |plan.updates| - i
  {
    if i >= |plan.updates| then cs
    else
      var u := plan.updates[i];
      SerialDebit(cs[u.handle := Debited(cs[u.handle], plan, u)], plan, i + 1)
  }

  /** One atomic event; a verification must give the answer it recorded. */
  function Replay1(cs: seq<Counter>, e: Event): Option<seq<Counter>> {
    match e
    case Created(c) => Some(cs + [c])
    case RefundOf(_, u) =>
      if u.handle < |cs| then Some(cs[u.handle := Refunded(cs[u.handle], u.amount, u.rule)]) else None
    case Verified(_, plan, denial) =>
      if InStore(plan.updates, |cs|) && SerialAnswer(cs, plan, 0) == denial then
        Some(if denial.None? then SerialDebit(cs, plan, 0) else cs)
      else None
  }

  function Replay(log: seq<Event>): Option<seq<Counter>> {
    if log == [] then Some([])
    else match Replay(log[..|log| - 1])
      case None => None
      case Some(cs) => Replay1(cs, log[|log| - 1])
  }

  // ---------- the serial state of a concurrent state ----------

  /** The first of the updates from the `i`-th on that is about `h`. */
  function PendingIndex(us: seq<Update>, i: nat, h: Handle): nat
    decreases |us| - i
  {
    if i >= |us| then |us| else if us[i].handle == h then i else PendingIndex(us, i + 1, h)
  }

  /** A cell's counter once the debit loop of its holder has run to its end. */
  function Settled(s: Sys, h: Handle): Counter
    requires h < |s.cells|
  {
    var cell := s.cells[h];
    match cell.holder
    case None => cell.counter
    case Some(t) =>
      if t < |s.threads| && s.threads[t].Call? then Due(cell.counter, s.threads[t].phase, h) else cell.counter
  }

  function Due(c: Counter, p: Phase, h: Handle): Counter {
    match p
    case Debiting(plan, i) =>
      var j := PendingIndex(plan.updates, i, h);
      if j < |plan.updates| then Debited(c, plan, plan.updates[j]) else c
    case _ => c
  }

  function Serial(s: Sys): seq<Counter> {
    seq(|s.cells|, h requires 0 <= h < |s.cells| => Settled(s, h))
  }

  // ---------- checked updates stay checked ----------

  ghost predicate CheckedAt(s: Sys, plan: Plan, j: nat)
    requires j < |plan.updates|
  {
    plan.updates[j].handle < |s.cells| && CheckAt(s, plan, j).Ok?
  }

  ghost predicate PhaseChecked(s: Sys, p: Phase) {
    match p
    case Checking(plan, i) => forall j :: 0 <= j < i && j < |plan.updates| ==> CheckedAt(s, plan, j)
    case Debiting(plan, i) => forall j :: i <= j < |plan.updates| ==> CheckedAt(s, plan, j)
    case _ => true
  }

  ghost predicate ThreadChecked(s: Sys, t: Tid)
    requires t < |s.threads|
  {
    s.threads[t].Call? ==> PhaseChecked(s, s.threads[t].phase)
  }

  ghost predicate Checked(s: Sys) {
    forall t: Tid :: t < |s.threads| ==> ThreadChecked(s, t)
  }

  /** A step leaves the counters that other threads hold alone. */
  ghost predicate SparesOthers(s: Sys, s': Sys, t: Tid) {
    && |s.cells| <= |s'.cells|
    && forall h :: 0 <= h < |s.cells| && s.cells[h].holder.Some? && s.cells[h].holder.value != t ==>
         s'.cells[h] == s.cells[h]
  }

  lemma CallSpares(s: Sys, t: Tid, req: Request, p: Phase, c: Choice)
    requires Shape(s) && t < |s.threads| && s.threads[t] == Call(req, p) && CallMove(s, t, req, p, c).Some?
    ensures SparesOthers(s, CallStep(s, t, CallMove(s, t, req, p, c).value), t)
  {
    var m := CallMove(s, t, req, p, c).value;
    assert ThreadOk(s, s.threads[t]);
    MoveAllowed(s, t, req, p, c);
    if m.effect != Quiet && m.effect.h < |s.cells| {
      assert HolderOk(s, t, m.effect.h);
    }
  }

  lemma StepSpares(s: Sys, t: Tid, c: Choice)
    requires Shape(s) && StepOf(s, t, c).Some?
    ensures SparesOthers(s, StepOf(s, t, c).value, t)
    ensures var s' := StepOf(s, t, c).value;
            |s'.threads| == |s.threads| && s'.threads == s.threads[t := s'.threads[t]]
  {
    var s' := StepOf(s, t, c).value;
    match s.threads[t]
    case Call(req, p) => CallSpares(s, t, req, p, c);
    case Upsert(_, _, _) =>
      UpsertFrame(s, t, c);
      ResetGrows(s, s', t);
    case Clear(_) =>
  }

  lemma OthersStayChecked(s: Sys, s': Sys, t: Tid, u: Tid)
    requires Shape(s) && SparesOthers(s, s', t) && u != t && u < |s.threads| && u < |s'.threads|
    requires s'.threads[u] == s.threads[u] && ThreadChecked(s, u)
    ensures ThreadChecked(s', u)
  {
    assert ThreadOk(s, s.threads[u]);
    if s.threads[u].Call? && (s.threads[u].phase.Checking? || s.threads[u].phase.Debiting?) {
      var p := s.threads[u].phase;
      forall j | 0 <= j < |p.plan.updates| && CheckedAt(s, p.plan, j)
        ensures CheckedAt(s', p.plan, j)
      {
        var h := p.plan.updates[j].handle;
        assert HoldsAt(p, j, h);
        assert HolderOk(s, u, h);
      }
    }
  }

  lemma OwnStaysChecked(s: Sys, t: Tid, req: Request, p: Phase, c: Choice)
    requires Shape(s) && t < |s.threads| && s.threads[t] == Call(req, p) && CallMove(s, t, req, p, c).Some?
    requires PhaseChecked(s, p)
    ensures var m := CallMove(s, t, req, p, c).value; PhaseChecked(CallStep(s, t, m), m.phase)
  {
    assert ThreadOk(s, s.threads[t]);
    var m := CallMove(s, t, req, p, c).value;
    var s' := CallStep(s, t, m);
    if p.Checking? {
      forall j | 0 <= j < |p.plan.updates| && CheckedAt(s, p.plan, j)
        ensures CheckedAt(s', p.plan, j)
      {
      }
      if p.i < |p.plan.updates| && m.phase.Checking? {
        assert UpdateOk(s, p.plan.updates[p.i]);
        assert CheckedAt(s, p.plan, p.i);
      }
    } else if p.Debiting? && p.i < |p.plan.updates| {
      assert CheckedAt(s, p.plan, p.i);
      forall j | p.i < j < |p.plan.updates|
        ensures CheckedAt(s', p.plan, j)
      {
        HandlesDistinct(s, p.plan.updates, p.i, j);
        assert CheckedAt(s, p.plan, j);
      }
    }
  }

  lemma StepKeepsChecked(s: Sys, t: Tid, c: Choice)
    requires Shape(s) && Checked(s) && StepOf(s, t, c).Some?
    ensures Checked(StepOf(s, t, c).value)
  {
    var s' := StepOf(s, t, c).value;
    StepSpares(s, t, c);
    assert ThreadChecked(s, t);
    forall u: Tid | u < |s'.threads|
      ensures ThreadChecked(s', u)
    {
      if u != t {
        assert ThreadChecked(s, u);
        OthersStayChecked(s, s', t, u);
      } else if s.threads[t].Call? {
        OwnStaysChecked(s, t, s.threads[t].req, s.threads[t].phase, c);
      } else if s.threads[t].Upsert? {
        UpsertFrame(s, t, c);
      }
    }
  }

  /** After the check loop passed, the debit loop never fails. */
  lemma DebitNeverFails(s: Sys, t: Tid, req: Request, p: Phase, c: Choice)
    requires Shape(s) && Checked(s) && t < |s.threads| && s.threads[t] == Call(req, p) && p.Debiting?
    ensures CallMove(s, t, req, p, c).Some?
    ensures var m := CallMove(s, t, req, p, c).value;
            m.phase == Debiting(p.plan, p.i + 1) || m.phase == Unlocking(p.plan, 0, None)
  {
    assert ThreadOk(s, s.threads[t]) && ThreadChecked(s, t);
    if p.i < |p.plan.updates| {
      assert CheckedAt(s, p.plan, p.i);
    }
  }

  // ---------- the log explains the state ----------

  ghost predicate Logged(s: Sys) {
    Replay(s.log) == Some(Serial(s))
  }

  lemma ReplayMore(log: seq<Event>, e: Event)
    ensures Replay(log + [e]) == match Replay(log) case None => None case Some(cs) => Replay1(cs, e)
  {
    assert (log + [e])[..|log|] == log;
  }

  lemma {:induction false} PendingIndexSpec(us: seq<Update>, i: nat, h: Handle)
    requires i <= |us|
    ensures var j := PendingIndex(us, i, h);
            && i <= j <= |us| && (j < |us| ==> us[j].handle == h)
            && forall k :: i <= k < j ==> us[k].handle != h
    decreases |us| - i
  {
    if i == |us| || us[i].handle == h {
    } else {
      PendingIndexSpec(us, i + 1, h);
    }
  }

  lemma {:induction false} SerialDebitAt(s: Sys, cs: seq<Counter>, plan: Plan, i: nat, h: Handle)
    requires UpdatesOk(s, plan.updates) && Sorted(plan.updates) && i <= |plan.updates|
    requires InStore(plan.updates, |cs|) && h < |cs|
    ensures SerialDebit(cs, plan, i)[h] == Due(cs[h], Debiting(plan, i), h)
    decreases |plan.updates| - i
  {
    if i == |plan.updates| {
    } else {
      var u := plan.updates[i];
      SerialDebitAt(s, cs[u.handle := Debited(cs[u.handle], plan, u)], plan, i + 1, h);
      if u.handle == h {
        PendingIndexSpec(plan.updates, i + 1, h);
        var j := PendingIndex(plan.updates, i + 1, h);
        if j < |plan.updates| {
          HandlesDistinct(s, plan.updates, i, j);
        }
      }
    }
  }

  /** A cell held in a phase that is not debiting shows its counter. */
  lemma SettledHeld(s: Sys, t: Tid, j: nat)
    requires Shape(s) && t < |s.threads| && s.threads[t].Call? && HasPlan(s.threads[t].phase)
    requires var p := s.threads[t].phase;
             j < |p.plan.updates| && HoldsAt(p, j, p.plan.updates[j].handle) && !p.Debiting?
    ensures var h := s.threads[t].phase.plan.updates[j].handle;
            h < |s.cells| && s.cells[h].holder == Some(t) && Settled(s, h) == s.cells[h].counter
  {
    assert ThreadOk(s, s.threads[t]);
    assert UpdateOk(s, s.threads[t].phase.plan.updates[j]);
    assert HolderOk(s, t, s.threads[t].phase.plan.updates[j].handle);
  }

  /** In the check loop the serial answer is the one found at index `i`. */
  lemma {:induction false} AnswerAgrees(s: Sys, t: Tid, plan: Plan, i: nat, k: nat)
    requires Shape(s) && Checked(s) && t < |s.threads| && s.threads[t].Call? && s.threads[t].phase == Checking(plan, i)
    requires k <= i <= |plan.updates| && InStore(plan.updates, |s.cells|)
    ensures SerialAnswer(Serial(s), plan, k) == SerialAnswer(Serial(s), plan, i)
    decreases i - k
  {
    if k == i {
    } else {
      assert ThreadChecked(s, t);
      assert CheckedAt(s, plan, k);
      assert HoldsAt(s.threads[t].phase, k, plan.updates[k].handle);
      SettledHeld(s, t, k);
      AnswerAgrees(s, t, plan, i, k + 1);
    }
  }

  lemma AnswerHere(s: Sys, t: Tid, plan: Plan, i: nat)
    requires Shape(s) && Checked(s) && t < |s.threads| && s.threads[t].Call? && s.threads[t].phase == Checking(plan, i)
    ensures InStore(plan.updates, |s.cells|)
    ensures i >= |plan.updates| ==> SerialAnswer(Serial(s), plan, 0) == None
    ensures i < |plan.updates| ==>
              match CheckAt(s, plan, i)
              case Ok(_) => true
              case Err(e) => SerialAnswer(Serial(s), plan, 0) == Some(Refused(e, plan.updates[i].context))
  {
    assert ThreadOk(s, s.threads[t]);
    forall j | 0 <= j < |plan.updates|
      ensures plan.updates[j].handle < |s.cells|
    {
      assert UpdateOk(s, plan.updates[j]);
    }
    AnswerAgrees(s, t, plan, i, 0);
    if i < |plan.updates| {
      assert HoldsAt(s.threads[t].phase, i, plan.updates[i].handle);
      SettledHeld(s, t, i);
    }
  }

  predicate Commits(p: Phase, m: Move) {
    p.Checking? && m.phase.Debiting?
  }

  /** Apart from the commit and the refund, a step leaves every settled counter. */
  lemma SettledStays(s: Sys, t: Tid, req: Request, p: Phase, c: Choice, h: Handle)
    requires Shape(s) && Checked(s) && t < |s.threads| && s.threads[t] == Call(req, p)
    requires CallMove(s, t, req, p, c).Some? && h < |s.cells|
    requires var m := CallMove(s, t, req, p, c).value;
             !Commits(p, m) && (p.Refunding? ==> p.i < |p.plan.updates| && p.plan.updates[p.i].handle != h)
    ensures Settled(CallStep(s, t, CallMove(s, t, req, p, c).value), h) == Settled(s, h)
  {
    assert ThreadOk(s, s.threads[t]) && ThreadChecked(s, t) && HolderOk(s, t, h);
    MoveAllowed(s, t, req, p, c);
    if p.Debiting? {
      DebitSettles(s, t, req, p, c, h);
    } else {
      NotDebiting(s, t, req, p, c);
    }
  }

  lemma NotDebiting(s: Sys, t: Tid, req: Request, p: Phase, c: Choice)
    requires CallMove(s, t, req, p, c).Some? && !p.Debiting? && !Commits(p, CallMove(s, t, req, p, c).value)
    ensures !CallMove(s, t, req, p, c).value.phase.Debiting?
    ensures CallMove(s, t, req, p, c).value.effect.Write? ==> false
    ensures CallMove(s, t, req, p, c).value.effect.WriteUnlock? ==> p.Refunding?
  {
  }

  lemma DueSkips(s: Sys, c: Counter, plan: Plan, i: nat, h: Handle)
    requires UpdatesOk(s, plan.updates) && Sorted(plan.updates) && i < |plan.updates|
    ensures plan.updates[i].handle != h ==> Due(c, Debiting(plan, i + 1), h) == Due(c, Debiting(plan, i), h)
    ensures plan.updates[i].handle == h ==>
              Due(c, Debiting(plan, i + 1), h) == c && Due(c, Debiting(plan, i), h) == Debited(c, plan, plan.updates[i])
  {
    PendingIndexSpec(plan.updates, i + 1, h);
    var j := PendingIndex(plan.updates, i + 1, h);
    if j < |plan.updates| {
      HandlesDistinct(s, plan.updates, i, j);
    }
  }

  lemma OneDebit(s: Sys, s': Sys, t: Tid, req: Request, plan: Plan, i: nat, h: Handle)
    requires Shape(s) && Checked(s) && t < |s.threads| && s.threads[t] == Call(req, Debiting(plan, i)) && h < |s.cells|
    requires i < |plan.updates| && plan.updates[i].handle < |s.cells|
    requires s'.threads == s.threads[t := Call(req, Debiting(plan, i + 1))]
    requires var u := plan.updates[i]; var cell := s.cells[u.handle];
             s'.cells == s.cells[u.handle := cell.(counter := Debited(cell.counter, plan, u))]
    ensures Settled(s', h) == Settled(s, h)
  {
    var p, u := s.threads[t].phase, plan.updates[i];
    assert ThreadOk(s, s.threads[t]) && HolderOk(s, t, h);
    assert HoldsAt(p, i, u.handle) && HolderOk(s, t, u.handle);
    DueSkips(s, s.cells[h].counter, plan, i, h);
    DueSkips(s, s'.cells[h].counter, plan, i, h);
  }

  lemma DebitSettles(s: Sys, t: Tid, req: Request, p: Phase, c: Choice, h: Handle)
    requires Shape(s) && Checked(s) && t < |s.threads| && s.threads[t] == Call(req, p) && p.Debiting?
    requires CallMove(s, t, req, p, c).Some? && h < |s.cells|
    ensures Settled(CallStep(s, t, CallMove(s, t, req, p, c).value), h) == Settled(s, h)
  {
    assert ThreadOk(s, s.threads[t]) && ThreadChecked(s, t);
    if p.i < |p.plan.updates| {
      assert CheckedAt(s, p.plan, p.i);
      OneDebit(s, CallStep(s, t, CallMove(s, t, req, p, c).value), t, req, p.plan, p.i, h);
    }
  }

  lemma CommitSettles(s: Sys, t: Tid, req: Request, p: Phase, c: Choice, h: Handle)
    requires Shape(s) && t < |s.threads| && s.threads[t] == Call(req, p)
    requires CallMove(s, t, req, p, c).Some? && h < |s.cells| && Commits(p, CallMove(s, t, req, p, c).value)
    requires InStore(p.plan.updates, |s.cells|)
    ensures Settled(CallStep(s, t, CallMove(s, t, req, p, c).value), h) == SerialDebit(Serial(s), p.plan, 0)[h]
  {
    assert ThreadOk(s, s.threads[t]) && HolderOk(s, t, h);
    SerialDebitAt(s, Serial(s), p.plan, 0, h);
    PendingIndexSpec(p.plan.updates, 0, h);
    var j := PendingIndex(p.plan.updates, 0, h);
    if j < |p.plan.updates| {
      assert HoldsAt(p, j, h);
    }
  }

  lemma CommitLogged(s: Sys, t: Tid, req: Request, p: Phase, c: Choice)
    requires Shape(s) && Checked(s) && Logged(s) && t < |s.threads| && s.threads[t] == Call(req, p)
    requires CallMove(s, t, req, p, c).Some? && Commits(p, CallMove(s, t, req, p, c).value)
    ensures Logged(CallStep(s, t, CallMove(s, t, req, p, c).value))
  {
    var s' := CallStep(s, t, CallMove(s, t, req, p, c).value);
    AnswerHere(s, t, p.plan, p.i);
    ReplayMore(s.log, Verified(t, p.plan, None));
    forall h | 0 <= h < |s.cells|
      ensures Settled(s', h) == SerialDebit(Serial(s), p.plan, 0)[h]
    {
      CommitSettles(s, t, req, p, c, h);
    }
    assert Serial(s') == SerialDebit(Serial(s), p.plan, 0);
  }

  lemma SerialStays(s: Sys, t: Tid, req: Request, p: Phase, c: Choice)
    requires Shape(s) && Checked(s) && t < |s.threads| && s.threads[t] == Call(req, p)
    requires CallMove(s, t, req, p, c).Some? && !p.Refunding?
    requires !Commits(p, CallMove(s, t, req, p, c).value)
    ensures Serial(CallStep(s, t, CallMove(s, t, req, p, c).value)) == Serial(s)
  {
    var s' := CallStep(s, t, CallMove(s, t, req, p, c).value);
    forall h | 0 <= h < |s.cells|
      ensures Settled(s', h) == Settled(s, h)
    {
      SettledStays(s, t, req, p, c, h);
    }
  }

  lemma RejectMove(s: Sys, t: Tid, req: Request, p: Phase, c: Choice)
    requires CallMove(s, t, req, p, c).Some? && p.Checking? && CallMove(s, t, req, p, c).value.phase.Unlocking?
    ensures p.i < |p.plan.updates| && p.plan.updates[p.i].handle < |s.cells| && CheckAt(s, p.plan, p.i).Err?
    ensures var d := Some(Refused(CheckAt(s, p.plan, p.i).error, p.plan.updates[p.i].context));
            CallMove(s, t, req, p, c).value.log == [Verified(t, p.plan, d)]
  {
  }

  lemma CallKeepsLogged(s: Sys, t: Tid, req: Request, p: Phase, c: Choice)
    requires Shape(s) && Checked(s) && Logged(s) && t < |s.threads| && s.threads[t] == Call(req, p)
    requires CallMove(s, t, req, p, c).Some?
    ensures Logged(CallStep(s, t, CallMove(s, t, req, p, c).value))
  {
    var m := CallMove(s, t, req, p, c).value;
    if Commits(p, m) {
      CommitLogged(s, t, req, p, c);
    } else if p.Refunding? {
      RefundLogged(s, t, req, p, c);
    } else {
      SerialStays(s, t, req, p, c);
      if p.Checking? && m.phase.Unlocking? {
        RejectMove(s, t, req, p, c);
        AnswerHere(s, t, p.plan, p.i);
        ReplayMore(s.log, m.log[0]);
      } else {
        NothingLogged(s, t, req, p, c);
        assert s.log + [] == s.log;
      }
    }
  }

  lemma NothingLogged(s: Sys, t: Tid, req: Request, p: Phase, c: Choice)
    requires CallMove(s, t, req, p, c).Some? && !p.Refunding?
    requires var m := CallMove(s, t, req, p, c).value; p.Checking? ==> !m.phase.Debiting? && !m.phase.Unlocking?
    ensures CallMove(s, t, req, p, c).value.log == []
  {
  }

  lemma RefundLogged(s: Sys, t: Tid, req: Request, p: Phase, c: Choice)
    requires Shape(s) && Checked(s) && Logged(s) && t < |s.threads| && s.threads[t] == Call(req, p)
    requires CallMove(s, t, req, p, c).Some? && p.Refunding?
    ensures Logged(CallStep(s, t, CallMove(s, t, req, p, c).value))
  {
    var m := CallMove(s, t, req, p, c).value;
    var s' := CallStep(s, t, m);
    assert ThreadOk(s, s.threads[t]);
    var u := p.plan.updates[p.i];
    assert HoldsAt(p, p.i, u.handle);
    SettledHeld(s, t, p.i);
    forall h | 0 <= h < |s.cells| && h != u.handle
      ensures Settled(s', h) == Settled(s, h)
    {
      SettledStays(s, t, req, p, c, h);
    }
    assert Serial(s') == Serial(s)[u.handle := Refunded(Serial(s)[u.handle], u.amount, u.rule)];
    ReplayMore(s.log, RefundOf(t, u));
  }

  lemma ResetSettles(s: Sys, s': Sys, t: Tid)
    requires Shape(s) && ResetFrame(s, s', t)
    ensures Serial(s') == if s'.cells == s.cells then Serial(s) else Serial(s) + [s'.cells[|s.cells|].counter]
  {
    ResetGrows(s, s', t);
    forall h | 0 <= h < |s.cells|
      ensures Settled(s', h) == Settled(s, h)
    {
      assert HolderOk(s, t, h);
    }
  }

  lemma UpsertLogs(s: Sys, t: Tid, c: Choice)
    requires t < |s.threads| && s.threads[t].Upsert? && UpsertStep(s, t, c).Some?
    ensures var s' := UpsertStep(s, t, c).value;
            if s'.cells == s.cells then s'.log == s.log
            else |s'.cells| == |s.cells| + 1 && s'.log == s.log + [Created(s'.cells[|s.cells|].counter)]
  {
  }

  lemma ResetKeepsLogged(s: Sys, s': Sys, t: Tid)
    requires Shape(s) && Logged(s) && ResetFrame(s, s', t)
    requires if s'.cells == s.cells then s'.log == s.log
             else |s'.cells| == |s.cells| + 1 && s'.log == s.log + [Created(s'.cells[|s.cells|].counter)]
    ensures Logged(s')
  {
    ResetSettles(s, s', t);
    if s'.cells != s.cells {
      ReplayMore(s.log, Created(s'.cells[|s.cells|].counter));
    }
  }

  lemma ClearFrame(s: Sys, t: Tid)
    requires t < |s.threads| && s.threads[t].Clear? && ClearStep(s, t).Some?
    ensures ResetFrame(s, ClearStep(s, t).value, t)
    ensures ClearStep(s, t).value.cells == s.cells && ClearStep(s, t).value.log == s.log
  {
  }

  lemma StepKeepsLogged(s: Sys, t: Tid, c: Choice)
    requires Shape(s) && Checked(s) && Logged(s) && StepOf(s, t, c).Some?
    ensures Logged(StepOf(s, t, c).value)
  {
    if s.threads[t].Call? {
      CallKeepsLogged(s, t, s.threads[t].req, s.threads[t].phase, c);
    } else if s.threads[t].Upsert? {
      UpsertFrame(s, t, c);
      UpsertLogs(s, t, c);
      ResetKeepsLogged(s, UpsertStep(s, t, c).value, t);
    } else {
      ClearFrame(s, t);
      ResetKeepsLogged(s, ClearStep(s, t).value, t);
    }
  }

  lemma {:induction false} RunLogged(s: Sys, run: Schedule)
    requires Initial(s) && After(s, run).Some?
    ensures var z := After(s, run).value; Shape(z) && Checked(z) && Logged(z)
    decreases |run|
  {
    RunShape(s, run);
    if run == [] {
      assert Serial(s) == [];
      forall t: Tid | t < |s.threads|
        ensures ThreadChecked(s, t)
      {
        assert Begins(s.threads[t]);
      }
    } else {
      var n := |run| - 1;
      RunLogged(s, run[..n]);
      StepKeepsChecked(After(s, run[..n]).value, run[n].0, run[n].1);
      StepKeepsLogged(After(s, run[..n]).value, run[n].0, run[n].1);
    }
  }

  // ---------- every outcome is in the history exactly once ----------

  function DecisionsOf(log: seq<Event>, t: Tid): seq<Event> {
    if log == [] then []
    else
      var rest, e := DecisionsOf(log[..|log| - 1], t), log[|log| - 1];
      if e.Verified? && e.t == t then rest + [e] else rest
  }

  function RefundsOf(log: seq<Event>, t: Tid): seq<Update> {
    if log == [] then []
    else
      var rest, e := RefundsOf(log[..|log| - 1], t), log[|log| - 1];
      if e.RefundOf? && e.t == t then rest + [e.update] else rest
  }

  /** The decisions of a request: none before the check loop ends, then one. */
  predicate Decided(t: Tid, p: Phase, ds: seq<Event>) {
    match p
    case Debiting(plan, _) => ds == [Verified(t, plan, None)]
    case Executing(plan) => ds == [Verified(t, plan, None)]
    case RefundLocking(plan, _) => ds == [Verified(t, plan, None)]
    case Refunding(plan, _) => ds == [Verified(t, plan, None)]
    case Kept(plan) => ds == [Verified(t, plan, None)]
    case Returned(plan) => ds == [Verified(t, plan, None)]
    case Unlocking(plan, _, denial) =>
      ds == [Verified(t, plan, denial)] && (denial.Some? ==> denial.value.Refused?)
    case Denied(reason) =>
      if reason.Refused? then |ds| == 1 && ds[0].Verified? && ds[0].denial == Some(reason) else ds == []
    case _ => ds == []
  }

  /** The refunds of a request: each of its updates once, in order, on failure. */
  predicate RefundsDone(p: Phase, us: seq<Update>) {
    match p
    case RefundLocking(plan, i) => i <= |plan.updates| && us == plan.updates[..i]
    case Refunding(plan, i) => i <= |plan.updates| && us == plan.updates[..i]
    case Returned(plan) => us == plan.updates
    case _ => us == []
  }

  ghost predicate Recorded(s: Sys, t: Tid)
    requires t < |s.threads|
  {
    match s.threads[t]
    case Call(_, p) => Decided(t, p, DecisionsOf(s.log, t)) && RefundsDone(p, RefundsOf(s.log, t))
    case _ => DecisionsOf(s.log, t) == [] && RefundsOf(s.log, t) == []
  }

  ghost predicate AllRecorded(s: Sys) {
    forall t: Tid :: t < |s.threads| ==> Recorded(s, t)
  }

  lemma RecordMore(log: seq<Event>, more: seq<Event>, t: Tid)
    requires |more| <= 1
    ensures DecisionsOf(log + more, t) ==
            DecisionsOf(log, t) + (if more != [] && more[0].Verified? && more[0].t == t then more else [])
    ensures RefundsOf(log + more, t) ==
            RefundsOf(log, t) + (if more != [] && more[0].RefundOf? && more[0].t == t then [more[0].update] else [])
  {
    if more == [] {
      assert log + more == log;
    } else {
      assert (log + more)[..|log|] == log;
    }
  }

  lemma MoveDecided(s: Sys, t: Tid, req: Request, p: Phase, c: Choice, ds: seq<Event>)
    requires PhaseOk(s, p) && PhaseChecked(s, p) && Decided(t, p, ds) && CallMove(s, t, req, p, c).Some?
    ensures var m := CallMove(s, t, req, p, c).value;
            Decided(t, m.phase, ds + (if m.log != [] && m.log[0].Verified? && m.log[0].t == t then m.log else []))
  {
    if p.Debiting? && p.i < |p.plan.updates| {
      assert CheckedAt(s, p.plan, p.i);
    }
  }

  lemma MoveRefunds(s: Sys, t: Tid, req: Request, p: Phase, c: Choice, us: seq<Update>)
    requires PhaseOk(s, p) && RefundsDone(p, us) && CallMove(s, t, req, p, c).Some?
    ensures var m := CallMove(s, t, req, p, c).value;
            RefundsDone(m.phase,
                         us + (if m.log != [] && m.log[0].RefundOf? && m.log[0].t == t then [m.log[0].update] else []))
  {
    if p.RefundLocking? {
      assert p.plan.updates[..|p.plan.updates|] == p.plan.updates;
    }
  }

  lemma MoveRecorded(s: Sys, t: Tid, req: Request, p: Phase, c: Choice)
    requires Shape(s) && Checked(s) && t < |s.threads| && s.threads[t] == Call(req, p) && Recorded(s, t)
    requires CallMove(s, t, req, p, c).Some?
    ensures Recorded(CallStep(s, t, CallMove(s, t, req, p, c).value), t)
  {
    assert ThreadOk(s, s.threads[t]) && ThreadChecked(s, t);
    OneEvent(s, t, req, p, c);
    RecordMore(s.log, CallMove(s, t, req, p, c).value.log, t);
    MoveDecided(s, t, req, p, c, DecisionsOf(s.log, t));
    MoveRefunds(s, t, req, p, c, RefundsOf(s.log, t));
  }

  lemma StepRecorded(s: Sys, t: Tid, c: Choice)
    requires Shape(s) && Checked(s) && AllRecorded(s) && StepOf(s, t, c).Some?
    ensures AllRecorded(StepOf(s, t, c).value)
  {
    var s' := StepOf(s, t, c).value;
    StepSpares(s, t, c);
    assert Recorded(s, t);
    LogGrowth(s, t, c);
    forall u: Tid | u < |s'.threads|
      ensures Recorded(s', u)
    {
      assert Recorded(s, u);
      if u == t && s.threads[t].Call? {
        MoveRecorded(s, t, s.threads[t].req, s.threads[t].phase, c);
      } else {
        var more := s'.log[|s.log|..];
        RecordMore(s.log, more, u);
      }
    }
  }

  /** A step logs at most one event, in its own name. */
  lemma LogGrowth(s: Sys, t: Tid, c: Choice)
    requires StepOf(s, t, c).Some?
    ensures var s' := StepOf(s, t, c).value;
            && |s.log| <= |s'.log| <= |s.log| + 1 && s'.log == s.log + s'.log[|s.log|..]
            && (|s'.log| > |s.log| && !s'.log[|s.log|].Created? ==> s.threads[t].Call? && s'.log[|s.log|].t == t)
            && (s.threads[t].Call? <==> s'.threads[t].Call?)
  {
    match s.threads[t]
    case Call(req, p) =>
      OneEvent(s, t, req, p, c);
    case Upsert(_, _, _) =>
      UpsertFrame(s, t, c);
      UpsertLogs(s, t, c);
    case Clear(_) =>
  }

  lemma OneEvent(s: Sys, t: Tid, req: Request, p: Phase, c: Choice)
    requires CallMove(s, t, req, p, c).Some?
    ensures var log := CallMove(s, t, req, p, c).value.log;
            log == [] || (|log| == 1 && !log[0].Created? && log[0].t == t)
  {
  }

  lemma {:induction false} RunRecorded(s: Sys, run: Schedule)
    requires Initial(s) && After(s, run).Some?
    ensures AllRecorded(After(s, run).value)
    decreases |run|
  {
    if run == [] {
      forall t: Tid | t < |s.threads|
        ensures Recorded(s, t)
      {
        assert Begins(s.threads[t]);
      }
    } else {
      var n := |run| - 1;
      RunRecorded(s, run[..n]);
      RunLogged(s, run[..n]);
      StepRecorded(After(s, run[..n]).value, run[n].0, run[n].1);
    }
  }

  // ---------- the theorem ----------

  ghost predicate NobodyDebits(s: Sys) {
    forall t: Tid :: t < |s.threads| && s.threads[t].Call? ==> !s.threads[t].phase.Debiting?
  }

  lemma ReachableLogged(z: Sys)
    requires Reachable(z)
    ensures Shape(z) && Checked(z) && Logged(z) && AllRecorded(z)
  {
    var s, run :| ReachedBy(s, run, z);
    RunLogged(s, run);
    RunRecorded(s, run);
  }

  /** Every interleaving is equivalent to the serial history it logged: replaying
      it gives every recorded answer and, whenever no request is between its first
      and last debit, exactly the balances of all counters. */
  lemma Serializable(z: Sys)
    requires Reachable(z)
    ensures Replay(z.log) == Some(Serial(z))
    ensures NobodyDebits(z) ==> forall h :: 0 <= h < |z.cells| ==> Serial(z)[h] == z.cells[h].counter
  {
    ReachableLogged(z);
    if NobodyDebits(z) {
      SettledQuiet(z);
    }
  }

  /** Each request whose check loop has ended stands in the history exactly once,
      with its own answer; one turned away before it, without a profile, a rule or a
      counter, does not stand there at all. Its refunds are updates of its plan in
      order, all of them once it has returned. */
  lemma OutcomesRecorded(z: Sys, t: Tid)
    requires Reachable(z) && t < |z.threads| && z.threads[t].Call?
    ensures Decided(t, z.threads[t].phase, DecisionsOf(z.log, t))
    ensures RefundsDone(z.threads[t].phase, RefundsOf(z.log, t))
  {
    ReachableLogged(z);
    assert Recorded(z, t);
  }

  lemma SettledQuiet(z: Sys)
    requires NobodyDebits(z)
    ensures forall h :: 0 <= h < |z.cells| ==> Serial(z)[h] == z.cells[h].counter
  {
  }

  lemma {:induction false} AnswerNone(cs: seq<Counter>, plan: Plan, i: nat, j: nat)
    requires InStore(plan.updates, |cs|) && SerialAnswer(cs, plan, i) == None && i <= j < |plan.updates|
    ensures var u := plan.updates[j]; CheckWithdraw(cs[u.handle], u.amount, plan.now, u.rule).Ok?
    decreases j - i
  {
    if i == j {
    } else {
      AnswerNone(cs, plan, i + 1, j);
    }
  }

  /** An accepted serial check debits each planned counter by exactly its amount,
      after a refill, and no other counter. */
  lemma AcceptedDebitsAll(s: Sys, cs: seq<Counter>, plan: Plan, h: Handle)
    requires UpdatesOk(s, plan.updates) && Sorted(plan.updates) && InStore(plan.updates, |cs|) && h < |cs|
    requires SerialAnswer(cs, plan, 0) == None
    ensures forall u :: u in plan.updates && u.handle == h ==>
              && CheckWithdraw(cs[h], u.amount, plan.now, u.rule).Ok?
              && SerialDebit(cs, plan, 0)[h] == Withdrawn(cs[h], u.amount, plan.now, u.rule)
    ensures (forall u :: u in plan.updates ==> u.handle != h) ==> SerialDebit(cs, plan, 0)[h] == cs[h]
  {
    SerialDebitAt(s, cs, plan, 0, h);
    PendingIndexSpec(plan.updates, 0, h);
    var j := PendingIndex(plan.updates, 0, h);
    forall u | u in plan.updates && u.handle == h
      ensures CheckWithdraw(cs[h], u.amount, plan.now, u.rule).Ok?
      ensures SerialDebit(cs, plan, 0)[h] == Withdrawn(cs[h], u.amount, plan.now, u.rule)
    {
      var k :| 0 <= k < |plan.updates| && plan.updates[k] == u;
      AnswerNone(cs, plan, 0, k);
      if j < k {
        HandlesDistinct(s, plan.updates, j, k);
      }
    }
  }

  // ---------- requests turned away before the check loop ----------

  /** The denial that the fields of the profile and the maps alone decide. */
  ghost function EarlyDenial(s: Sys, req: Request): Option<Denial> {
    if req.pubkey !in s.profiles then Some(Unauthorized)
    else
      var profile := s.profiles[req.pubkey];
      if Forbids(profile, req.verb) then Some(AccessDenied)
      else if Limited(profile, req.verb) && MethodKey(req.pubkey, req.verb) !in s.rates then
        Some(MissingState(AccessRate))
      else if req.spendMsat > 0 && profile.quota.Some? && QuotaKey(req.pubkey) !in s.quotas then
        Some(MissingState(Quota))
      else None
  }

  /** How far a request has come, as `EarlyDenial` tells. */
  ghost predicate Foretold(s: Sys, req: Request, p: Phase) {
    match p
    case Arrived => true
    case FetchRate(rate, quota) =>
      && req.pubkey in s.profiles && MethodRule(s.profiles[req.pubkey], req.verb) == Ok(rate)
      && quota == s.profiles[req.pubkey].quota
    case FetchQuota(_, quota, _) =>
      && req.pubkey in s.profiles && quota == s.profiles[req.pubkey].quota
      && var rule := MethodRule(s.profiles[req.pubkey], req.verb);
         rule.Ok? && (rule.value.Some? ==> MethodKey(req.pubkey, req.verb) in s.rates)
    case Unlocking(_, _, denial) => EarlyDenial(s, req) == None && (denial.Some? ==> denial.value.Refused?)
    case Denied(d) => EarlyDenial(s, req) == if d.Refused? then None else Some(d)
    case _ => EarlyDenial(s, req) == None
  }

  lemma ForetoldStep(s: Sys, t: Tid, req: Request, p: Phase, c: Choice)
    requires Foretold(s, req, p) && CallMove(s, t, req, p, c).Some?
    ensures Foretold(s, req, CallMove(s, t, req, p, c).value.phase)
  {
    if req.pubkey in s.profiles {
      MethodRuleMeans(s.profiles[req.pubkey], req.verb);
    }
  }

  /** Only requests move. */
  ghost predicate NoResets(s: Sys, run: Schedule) {
    forall j :: 0 <= j < |run| ==> run[j].0 < |s.threads| && s.threads[run[j].0].Call?
  }

  ghost predicate SameCalls(s: Sys, z: Sys) {
    && |z.threads| == |s.threads| && z.profiles == s.profiles && z.rates == s.rates && z.quotas == s.quotas
    && forall u :: 0 <= u < |s.threads| && s.threads[u].Call? ==>
         z.threads[u].Call? && z.threads[u].req == s.threads[u].req
  }

  lemma {:induction false} ForetoldRun(s: Sys, run: Schedule, t: Tid)
    requires After(s, run).Some? && NoResets(s, run)
    requires t < |s.threads| && s.threads[t].Call? && s.threads[t].phase == Arrived
    ensures var z := After(s, run).value; SameCalls(s, z) && Foretold(s, s.threads[t].req, z.threads[t].phase)
    decreases |run|
  {
    if run == [] {
    } else {
      var n := |run| - 1;
      ForetoldRun(s, run[..n], t);
      var mid, u, c := After(s, run[..n]).value, run[n].0, run[n].1;
      if u == t {
        var req, p := mid.threads[t].req, mid.threads[t].phase;
        SameForetold(s, mid, req, p);
        ForetoldStep(mid, t, req, p, c);
        SameForetold(s, mid, req, CallMove(mid, t, req, p, c).value.phase);
      }
    }
  }

  lemma SameForetold(s: Sys, z: Sys, req: Request, p: Phase)
    requires z.profiles == s.profiles && z.rates == s.rates && z.quotas == s.quotas
    ensures Foretold(z, req, p) <==> Foretold(s, req, p)
  {
  }

  /** While no reset runs, a request is turned away before its check loop exactly
      with the denial that the constant profiles and maps decide, and reaches the
      loop exactly if they decide none: with the history, every outcome is serial. */
  lemma EarlyDenialsSerial(s: Sys, run: Schedule, z: Sys, t: Tid)
    requires After(s, run) == Some(z) && NoResets(s, run)
    requires t < |s.threads| && s.threads[t].Call? && s.threads[t].phase == Arrived
    ensures t < |z.threads| && z.threads[t].Call?
    ensures var p, d := z.threads[t].phase, EarlyDenial(s, s.threads[t].req);
            && (p.Denied? && !p.reason.Refused? ==> d == Some(p.reason))
            && (HasPlan(p) || (p.Denied? && p.reason.Refused?) ==> d == None)
  {
    ForetoldRun(s, run, t);
  }
}
