/** What a write to the configuration file does: undisturbed, as a whole, and over runs in which any number of them
    race. */
module Configuration {
  import opened Rendezvous
  import opened System
  import opened Safety
  import opened CallerSteps
  import opened Runs
  import opened StuckConfiguration

  // ----- One write -----

  function WriterLeft(w: Writer): (left: nat) {
    match w
    case AtConf(_) => 6
    case Checking(_) => 5
    case SettingUsp(_) => 4
    case SettingConfigured => 3
    case UppingGate => 2
    case UppingConf => 1
    case _ => 0
  }

  lemma WriterNearer(g: Globals, w: Writer)
    requires ConfWrite(g, w).WStep?
    ensures WriterLeft(ConfWrite(g, w).w) < WriterLeft(w)
  {}

  /** Where a write ends that nobody disturbs. */
  function Finish(g: Globals, w: Writer): (end: WStepResult)
    ensures end.WStep?
    decreases WriterLeft(w)
  {
    var r := ConfWrite(g, w);
    if r.WBlocked? then WStep(g, w)
    else
      WriterNearer(g, w);
      Finish(r.g, r.w)
  }

  lemma FinishStep(g: Globals, w: Writer)
    requires ConfWrite(g, w).WStep?
    ensures Finish(g, w) == Finish(ConfWrite(g, w).g, ConfWrite(g, w).w)
  {}

  lemma FinishEnd(g: Globals, w: Writer)
    requires ConfWrite(g, w).WBlocked?
    ensures Finish(g, w) == WStep(g, w)
  {}

  lemma FinishUpping(g: Globals)
    ensures Finish(g, UppingConf) == WStep(g.(confMutex := g.confMutex + 1), Left)
  {
    hide Finish;
    FinishStep(g, UppingConf);
    FinishEnd(g.(confMutex := g.confMutex + 1), Left);
  }

  lemma FinishGate(g: Globals)
    ensures Finish(g, UppingGate) == WStep(g.(gate := g.gate + 1, confMutex := g.confMutex + 1), Left)
  {
    hide Finish;
    FinishStep(g, UppingGate);
    FinishUpping(g.(gate := g.gate + 1));
  }

  lemma FinishSetting(g: Globals, t: Transport)
    ensures Finish(g, SettingUsp(t))
         == WStep(g.(callUsp := Some(t), configured := true, gate := g.gate + 1, confMutex := g.confMutex + 1), Left)
  {
    hide Finish;
    FinishStep(g, SettingUsp(t));
    FinishStep(g.(callUsp := Some(t)), SettingConfigured);
    FinishGate(g.(callUsp := Some(t), configured := true));
  }

  /** conf_write, in all its cases: it returns with conf_mutex down if the module is configured or the text is
      rejected; otherwise it sets the pid if there is none and it brings one, or the transport, opening the gate, if
      there is a pid and it brings a transport; and else nothing. */
  lemma WholeWrite(g: Globals, cmd: Command)
    requires g.confMutex > 0
    ensures g.configured || cmd == Rejected ==>
              Finish(g, AtConf(cmd)) == WStep(g.(confMutex := g.confMutex - 1), LeftHolding)
    ensures !g.configured && g.pid == 0 && cmd.SetPid? ==> Finish(g, AtConf(cmd)) == WStep(g.(pid := cmd.pid), Left)
    ensures !g.configured && g.pid == 0 && (cmd.SetCon? || cmd.Other?) ==> Finish(g, AtConf(cmd)) == WStep(g, Left)
    ensures !g.configured && g.pid != 0 && cmd.SetCon? ==>
              Finish(g, AtConf(cmd)) == WStep(g.(callUsp := Some(cmd.t), configured := true, gate := g.gate + 1), Left)
    ensures !g.configured && g.pid != 0 && (cmd.SetPid? || cmd.Other?) ==> Finish(g, AtConf(cmd)) == WStep(g, Left)
  {
    hide Finish;
    var down := g.(confMutex := g.confMutex - 1);
    FinishStep(g, AtConf(cmd));
    FinishStep(down, Checking(cmd));
    if g.configured || cmd == Rejected {
      FinishEnd(down, LeftHolding);
    } else if g.pid == 0 {
      FinishUpping(down.(pid := if cmd.SetPid? then cmd.pid else 0));
    } else if cmd.SetCon? {
      FinishSetting(down, cmd.t);
    } else {
      FinishUpping(down);
    }
  }

  // ----- Many writes -----

  lemma LeavesHolding(g: Globals, cmd: Command)
    requires g.configured || cmd == Rejected
    ensures ConfWrite(g, Checking(cmd)) == WStep(g, LeftHolding)
  {}

  /** A write that finds the module configured, or is rejected, leaves conf_mutex down for ever. */
  lemma EarlyReturnHolds(r: Run, i: nat, j: nat, w: nat, cmd: Command)
    requires IsRun(r) && i < j < |r.states| && r.labels[i] == WriterStep(w)
    requires w in r.states[i].writers && r.states[i].writers[w] == Checking(cmd)
    requires r.states[i].g.configured || cmd == Rejected
    ensures r.states[j].g.confMutex == 0 && w in r.states[j].writers && r.states[j].writers[w] == LeftHolding
  {
    hide ConfWrite, Initial;
    assert Step(r.states[i], r.labels[i], r.states[i + 1]);
    LeavesHolding(r.states[i].g, cmd);
    NobodyWritesAgain(r, i + 1, j, w);
  }

  /** Writer id came with this command before step i. */
  ghost predicate Arrived(r: Run, i: nat, id: nat, cmd: Command)
    requires i <= |r.labels|
  {
    exists k :: 0 <= k < i && r.labels[k] == WriterArrive(id, cmd)
  }

  ghost predicate Came(r: Run, i: nat, id: nat, w: Writer)
    requires i <= |r.labels|
  {
    match w
    case AtConf(cmd) => Arrived(r, i, id, cmd)
    case Checking(cmd) => Arrived(r, i, id, cmd)
    case SettingUsp(t) => Arrived(r, i, id, SetCon(t))
    case _ => true
  }

  ghost predicate PidCame(r: Run, i: nat, pid: nat)
    requires i <= |r.labels|
  {
    pid == 0 || exists id :: Arrived(r, i, id, SetPid(pid))
  }

  ghost predicate TransportCame(r: Run, i: nat, usp: Option<Transport>)
    requires i <= |r.labels|
  {
    usp == None || exists id :: Arrived(r, i, id, SetCon(usp.value))
  }

  ghost predicate AllCame(r: Run, i: nat)
    requires i < |r.states| && |r.states| == |r.labels| + 1
  {
    var s := r.states[i];
    && (forall id :: id in s.writers ==> Came(r, i, id, s.writers[id]))
    && PidCame(r, i, s.g.pid) && TransportCame(r, i, s.g.callUsp)
  }

  lemma StillArrived(r: Run, i: nat, id: nat, cmd: Command)
    requires i < |r.labels| && Arrived(r, i, id, cmd)
    ensures Arrived(r, i + 1, id, cmd)
  {}

  lemma StillCame(r: Run, i: nat)
    requires i < |r.labels|
    ensures forall id, w :: Came(r, i, id, w) ==> Came(r, i + 1, id, w)
    ensures forall pid :: PidCame(r, i, pid) ==> PidCame(r, i + 1, pid)
    ensures forall usp :: TransportCame(r, i, usp) ==> TransportCame(r, i + 1, usp)
  {
    hide Arrived;
    forall id, cmd | Arrived(r, i, id, cmd)
      ensures Arrived(r, i + 1, id, cmd)
    {
      StillArrived(r, i, id, cmd);
    }
  }

  /** A statement of conf_write takes what it sets from its own command. */
  lemma WriterTakes(r: Run, i: nat, id: nat, g: Globals, w: Writer)
    requires i <= |r.labels| && Came(r, i, id, w) && PidCame(r, i, g.pid) && TransportCame(r, i, g.callUsp)
    requires ConfWrite(g, w).WStep?
    ensures var n := ConfWrite(g, w); Came(r, i, id, n.w) && PidCame(r, i, n.g.pid) && TransportCame(r, i, n.g.callUsp)
  {
    hide Arrived;
  }

  lemma CameStep(r: Run, i: nat)
    requires IsRun(r) && i < |r.labels| && AllCame(r, i)
    ensures AllCame(r, i + 1)
  {
    hide Came, PidCame, TransportCame, ConfWrite, CallerMoves, DaemonMoves, ValidRequest, Present, Initial;
    var s, l, s' := r.states[i], r.labels[i], r.states[i + 1];
    assert Step(s, l, s');
    StillCame(r, i);
    match l
    case CallerStep(id, block) => CallerGate(s, id, block, s');
    case DaemonStep => DaemonGate(s, s');
    case WriterArrive(id, cmd) => JustCame(r, i, id, cmd);
    case WriterStep(id) => WriterTakes(r, i, id, s.g, s.writers[id]);
    case _ =>
  }

  lemma JustCame(r: Run, i: nat, id: nat, cmd: Command)
    requires i < |r.labels| && r.labels[i] == WriterArrive(id, cmd)
    ensures Came(r, i + 1, id, AtConf(cmd))
  {}

  /** In every run the pid and the transport are ones that some earlier write brought. */
  lemma {:induction false} ConfigurationCame(r: Run, i: nat)
    requires IsRun(r) && i < |r.states|
    ensures AllCame(r, i)
    ensures var g := r.states[i].g;
            && (g.pid != 0 ==> exists id :: Arrived(r, i, id, SetPid(g.pid)))
            && (g.callUsp.Some? ==> exists id :: Arrived(r, i, id, SetCon(g.callUsp.value)))
  {
    hide Step, Came, Arrived;
    if i > 0 {
      ConfigurationCame(r, i - 1);
      CameStep(r, i - 1);
    }
  }
}
