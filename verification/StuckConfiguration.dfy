/** A configuration write that leaves without raising conf_mutex: no later write gets in, and if nothing was configured
    by then, the gate stays shut for good. */
module StuckConfiguration {
  import opened Rendezvous
  import opened System
  import opened Safety
  import opened CallerSteps
  import opened Runs

  lemma HeldDown(s: State, h: nat)
    requires ConfLaw(s) && h in s.writers && s.writers[h] == LeftHolding
    ensures s.g.confMutex == 0
  {
    assert h in ConfHolders(s.writers);
    SubsetSize({h}, ConfHolders(s.writers));
  }

  /** No writer has an enabled step. */
  lemma NoWriterMoves(s: State, h: nat, w: nat, s': State)
    requires ConfLaw(s) && h in s.writers && s.writers[h] == LeftHolding
    ensures !WriterMoves(s, w, s')
  {
    hide ConfHolders;
    HeldDown(s, h);
    if w in s.writers && HoldsConf(s.writers[w]) {
      OneConfHolder(s, h, w);
    }
  }

  lemma StuckStep(s: State, l: Label, s': State, h: nat)
    requires ConfLaw(s) && h in s.writers && s.writers[h] == LeftHolding && Step(s, l, s')
    ensures !l.WriterStep?
    ensures h in s'.writers && s'.writers[h] == LeftHolding && s'.g.configured == s.g.configured
  {
    hide CallerMoves, DaemonMoves, WriterMoves, ConfLaw, ValidRequest, Present;
    match l
    case CallerStep(id, block) => CallerGate(s, id, block, s');
    case DaemonStep => DaemonGate(s, s');
    case WriterStep(w) => NoWriterMoves(s, h, w, s');
    case _ =>
  }

  /** Once writer h has left with conf_mutex down, at step i, no writer moves any more. */
  lemma {:induction false} NobodyWritesAgain(r: Run, i: nat, j: nat, h: nat)
    requires IsRun(r) && i <= j < |r.states| && h in r.states[i].writers && r.states[i].writers[h] == LeftHolding
    ensures h in r.states[j].writers && r.states[j].writers[h] == LeftHolding
    ensures r.states[j].g.confMutex == 0 && r.states[j].g.configured == r.states[i].g.configured
    ensures j < |r.labels| ==> !r.labels[j].WriterStep?
    decreases j
  {
    hide Step, Initial, ConfLaw, GateLaw, WritersOk, ProtocolOk, DaemonOk, CallersOk;
    if i < j {
      NobodyWritesAgain(r, i, j - 1, h);
      Always(r, j - 1);
      assert Step(r.states[j - 1], r.labels[j - 1], r.states[j]);
      StuckStep(r.states[j - 1], r.labels[j - 1], r.states[j], h);
    }
    Always(r, j);
    HeldDown(r.states[j], h);
    if j < |r.labels| {
      assert Step(r.states[j], r.labels[j], r.states[j + 1]);
      StuckStep(r.states[j], r.labels[j], r.states[j + 1], h);
    }
  }

  lemma ShutGate(s: State)
    requires GateLaw(s) && !s.g.configured
    ensures s.g.gate == 0
  {}

  lemma PassingNeedsGate(s: State, l: Label, s': State, id: nat)
    requires Step(s, l, s') && PassesAt(s, l, id)
    ensures s.g.gate > 0
  {}

  /** If the configuration was not complete by then, no caller ever passes the gate. */
  lemma NobodyPassesEver(r: Run, i: nat, j: nat, h: nat, id: nat)
    requires IsRun(r) && i <= j < |r.labels| && h in r.states[i].writers && r.states[i].writers[h] == LeftHolding
    requires !r.states[i].g.configured
    ensures !PassesAt(r.states[j], r.labels[j], id)
  {
    hide Step, Initial, ConfLaw, GateLaw, WritersOk, ProtocolOk, DaemonOk, CallersOk, PassesAt;
    NobodyWritesAgain(r, i, j, h);
    Always(r, j);
    ShutGate(r.states[j]);
    assert Step(r.states[j], r.labels[j], r.states[j + 1]);
    if PassesAt(r.states[j], r.labels[j], id) {
      PassingNeedsGate(r.states[j], r.labels[j], r.states[j + 1], id);
    }
  }
}
