/** The one-slot mailbox of the netlink transport over whole runs: every deposited packet is taken, once. */
module Mailbox {
  import opened Rendezvous
  import opened System
  import opened Safety
  import opened CallerSteps
  import opened EndToEnd
  import opened Runs

  /** A packet lies in the mailbox for the caller in call_usp. */
  ghost function OutstandingAt(s: State): (n: nat) {
    if exists id :: id in s.callers && s.callers[id].pc.InCall? && Outstanding(s.g, s.callers[id].pc.k) then 1 else 0
  }

  predicate IsDeposit(s: State, l: Label) {
    l.DaemonStep? && s.daemon.Running? && s.daemon.pc.DnFlag?
  }

  predicate IsTake(s: State, l: Label) {
    && l.CallerStep? && l.id in s.callers && s.callers[l.id].pc.InCall?
    && (s.callers[l.id].pc.k.NWait1? || s.callers[l.id].pc.k.NWait2?)
  }

  function One(b: bool): (n: nat) {
    if b then 1 else 0
  }

  /** How many packets the steps before i deposited, and took. */
  function Deposits(r: Run, i: nat): (n: nat)
    requires i <= |r.labels| < |r.states|
  {
    if i == 0 then 0 else Deposits(r, i - 1) + One(IsDeposit(r.states[i - 1], r.labels[i - 1]))
  }

  function Takes(r: Run, i: nat): (n: nat)
    requires i <= |r.labels| < |r.states|
  {
    if i == 0 then 0 else Takes(r, i - 1) + One(IsTake(r.states[i - 1], r.labels[i - 1]))
  }

  lemma OneInCall(s: State, id: nat)
    requires GateOk(s) && id in s.callers && s.callers[id].pc.InCall?
    ensures OutstandingAt(s) == One(Outstanding(s.g, s.callers[id].pc.k))
  {
    hide GateOk, Outstanding;
    OthersOutside(s, id);
  }

  lemma NoneInCall(s: State)
    requires NobodyInCall(s)
    ensures OutstandingAt(s) == 0
  {}

  lemma SameOutstanding(s: State, s': State)
    requires s'.g.nlFlag == s.g.nlFlag
    requires forall id :: (id in s.callers && s.callers[id].pc.InCall?) <==>
             (id in s'.callers && s'.callers[id].pc.InCall?)
    requires forall id :: id in s.callers && s.callers[id].pc.InCall? ==> s'.callers[id].pc == s.callers[id].pc
    ensures OutstandingAt(s') == OutstandingAt(s)
  {}

  lemma Elsewhere(t: Transport, g: Globals, k: KPc, d: DPc)
    requires Inv(t, g, k, d) && t != NL
    ensures !Outstanding(g, k) && !k.NWait1? && !k.NWait2? && !d.DnFlag?
  {}

  lemma OutIsEmpty(t: Transport, g: Globals, d: DPc)
    requires Inv(t, g, KOut, d)
    ensures !Outstanding(g, KOut) && !d.DnFlag?
  {}

  lemma EntryIsEmpty(t: Transport, g: Globals)
    ensures !Outstanding(g, Entry(t))
  {}

  /** What a caller's statement does to the mailbox. */
  lemma CallTakes(t: Transport, g: Globals, k: KPc, d: DPc, snc: Container)
    requires Inv(t, g, k, d) && CallUsp(g, k, snc).KStep?
    ensures var c := CallUsp(g, k, snc);
            One(Outstanding(c.g, c.pc)) + One(k.NWait1? || k.NWait2?) == One(Outstanding(g, k))
  {
    hide CallUsp, Outstanding, ProcInv, IoctlInv, NlInv;
    if t == NL {
      TakeOnce(g, k, d, snc);
    } else {
      CallerSimulates(t, g, k, d, snc) by { hide Inv, PhaseOf; }
      Elsewhere(t, g, k, d) by { hide Inv; }
      Elsewhere(t, CallUsp(g, k, snc).g, CallUsp(g, k, snc).pc, d) by { hide Inv; }
    }
  }

  lemma TalkDeposits(t: Transport, g: Globals, k: KPc, d: DPc)
    requires Inv(t, g, k, d) && Daemon(t, g, d).DStep?
    ensures One(Outstanding(Daemon(t, g, d).g, k)) == One(Outstanding(g, k)) + One(d.DnFlag?)
  {
    hide Daemon, Outstanding, ProcInv, IoctlInv, NlInv;
    if t == NL {
      DepositOnce(g, k, d);
    } else {
      DaemonSimulates(t, g, k, d) by { hide Inv, PhaseOf; }
      Elsewhere(t, g, k, d) by { hide Inv; }
      Elsewhere(t, Daemon(t, g, d).g, k, Daemon(t, g, d).pc) by { hide Inv; }
    }
  }

  /** What one step does to the account. */
  ghost predicate Balanced(s: State, l: Label, s': State) {
    OutstandingAt(s') + One(IsTake(s, l)) == OutstandingAt(s) + One(IsDeposit(s, l))
  }

  lemma InCallBalance(s: State, id: nat, block: nat, s': State)
    requires Invariant(s) && Invariant(s') && id in s.callers && s.callers[id].pc.InCall?
    requires Calls(s, id, s.callers[id], s.callers[id].pc.k, s')
    ensures Balanced(s, CallerStep(id, block), s')
  {
    hide Invariant, Inv, CallUsp, Outstanding, OutstandingAt, Cycle;
    var c := s.callers[id];
    CallInvariant(s, id);
    CallTakes(s.g.callUsp.value, s.g, c.pc.k, DaemonAt(s), c.snc);
    GateOf(s);
    GateOf(s');
    OneInCall(s, id);
    if CallUsp(s.g, c.pc.k, c.snc).e == Return {
      CallUspEvents(s.g, c.pc.k, c.snc);
      NotOut(CallUsp(s.g, c.pc.k, c.snc).g);
      NoneButOne(s', id);
      NoneInCall(s');
    } else {
      OneInCall(s', id);
    }
  }

  lemma NotOut(g: Globals)
    ensures !Outstanding(g, KOut)
  {}

  lemma GateOf(s: State)
    requires Invariant(s)
    ensures GateOk(s)
  {}

  lemma PackingBalance(s: State, id: nat, block: nat, s': State)
    requires Invariant(s) && Invariant(s') && id in s.callers && s.callers[id].pc == Packing &&
             Packs(s, id, s.callers[id], block, s')
    ensures Balanced(s, CallerStep(id, block), s')
  {
    hide Invariant, Inv, Outstanding, OutstandingAt;
    GateOf(s);
    GateOf(s');
    IdleWhileNobody(s, id) by { hide InvAt; }
    NoneInCall(s);
    OneInCall(s', id);
    EntryIsEmpty(s.g.callUsp.value, s'.g);
  }

  lemma OutsideBalance(s: State, id: nat, block: nat, s': State)
    requires CallerMoves(s, id, block, s') && !s.callers[id].pc.InCall? && s.callers[id].pc != Packing
    ensures Balanced(s, CallerStep(id, block), s')
  {
    hide OutstandingAt;
    SameOutstanding(s, s');
  }

  lemma TalkBalance(s: State, s': State)
    requires Invariant(s) && Invariant(s') && Talks(s, s')
    ensures Balanced(s, DaemonStep, s')
  {
    hide GateOk, CallersOk, Inv, Daemon, Outstanding, OutstandingAt;
    var t, d := s.g.callUsp.value, s.daemon.pc;
    if NobodyInCall(s) {
      NoneInCall(s);
      NoneInCall(s');
      OutIsEmpty(t, s.g, d);
    } else {
      var id :| id in s.callers && s.callers[id].pc.InCall?;
      OneInCall(s, id);
      OneInCall(s', id);
      TalkDeposits(t, s.g, s.callers[id].pc.k, d);
    }
  }

  lemma ServeBalance(s: State, s': State)
    requires Serves(s, s')
    ensures Balanced(s, DaemonStep, s')
  {
    hide Serve, OutstandingAt;
    SameOutstanding(s, s');
  }

  lemma StepBalance(s: State, l: Label, s': State)
    requires Invariant(s) && Invariant(s') && Step(s, l, s')
    ensures Balanced(s, l, s')
  {
    hide Invariant, Balanced, Calls, Packs, PassesGate, Kills, Leaves, Serves, Talks, ConfWrite, ValidRequest;
    match l
    case CallerStep(id, block) =>
      if s.callers[id].pc.InCall? {
        InCallBalance(s, id, block, s');
      } else if s.callers[id].pc == Packing {
        PackingBalance(s, id, block, s');
      } else {
        OutsideBalance(s, id, block, s');
      }
    case DaemonStep =>
      if Talks(s, s') {
        TalkBalance(s, s');
      } else {
        ServeBalance(s, s');
      }
    case WriterStep(w) =>
      WriterFlag(s.g, s.writers[w]);
      StillBalanced(s, l, s');
    case _ => StillBalanced(s, l, s');
  }

  lemma WriterFlag(g: Globals, w: Writer)
    ensures ConfWrite(g, w).WStep? ==> ConfWrite(g, w).g.nlFlag == g.nlFlag
  {}

  lemma StillBalanced(s: State, l: Label, s': State)
    requires !l.CallerStep? && !l.DaemonStep? && s'.g.nlFlag == s.g.nlFlag
    requires forall id :: (id in s.callers && s.callers[id].pc.InCall?) <==>
             (id in s'.callers && s'.callers[id].pc.InCall?)
    requires forall id :: id in s.callers && s.callers[id].pc.InCall? ==> s'.callers[id].pc == s.callers[id].pc
    ensures Balanced(s, l, s')
  {
    hide OutstandingAt;
    SameOutstanding(s, s');
  }

  /** In every run, as many packets were deposited as taken, but for the one that is outstanding. */
  lemma {:induction false} DepositsAreTaken(r: Run, i: nat)
    requires IsRun(r) && i < |r.states|
    ensures Deposits(r, i) == Takes(r, i) + OutstandingAt(r.states[i])
  {
    hide Step, Initial, Invariant, OutstandingAt, IsDeposit, IsTake;
    if i == 0 {
      NothingYet(r.states[0]);
    } else {
      DepositsAreTaken(r, i - 1);
      Always(r, i - 1);
      Always(r, i);
      assert Step(r.states[i - 1], r.labels[i - 1], r.states[i]);
      StepBalance(r.states[i - 1], r.labels[i - 1], r.states[i]);
    }
  }

  lemma NothingYet(s: State)
    requires Initial(s)
    ensures OutstandingAt(s) == 0
  {}
}
