/** Nothing is paid for or reported outside the plan, whatever the server does. */
module ActivationPlan {
  import opened Wrappers
  import opened Activation
  import opened ActivationRecords

  predicate InPlan(plan: set<Key>, j: Journal) {
    (forall i :: 0 <= i < |j.rows| ==> j.rows[i].key in plan) && (j.pending.Some? ==> j.pending.value.key in plan)
  }

  predicate PcInPlan(plan: set<Key>, pc: Pc) {
    match pc
    case CheckingStart(key) => key in plan
    case Creating(key) => key in plan
    case Registering(key, _) => key in plan
    case _ => true
  }

  /** Every key the journals, the process and the stand know is one of the plan. */
  ghost predicate Planned(plan: set<Key>, s: State) {
    && InPlan(plan, s.disk) && (s.process.Up? ==> InPlan(plan, s.process.mem) && PcInPlan(plan, s.process.pc))
    && (forall c :: c in s.world.keyOf ==> s.world.keyOf[c] in plan)
    && forall r :: r in s.world.admitted ==> s.world.admitted[r].key in plan
  }

  lemma StepKeepsPlan(server: Server, plan: set<Key>, s: State, a: Action)
    requires Planned(plan, s) && Enabled(server, plan, s, a) == true
    ensures Planned(plan, Apply(s, a))
  {
    if IsOuter(a) {
      OuterKeepsPlan(server, plan, s, a);
    } else if IsAdmission(a) {
      AdmissionKeepsPlan(server, plan, s, a);
    } else {
      RestKeepsPlan(server, plan, s, a);
    }
  }

  lemma OuterKeepsPlan(server: Server, plan: set<Key>, s: State, a: Action)
    requires Planned(plan, s) && IsOuter(a) && Enabled(server, plan, s, a) == true
    ensures Planned(plan, Apply(s, a))
  {
    hide HasKey, Boundary;
  }

  lemma AdmissionKeepsPlan(server: Server, plan: set<Key>, s: State, a: Action)
    requires Planned(plan, s) && IsAdmission(a) && Enabled(server, plan, s, a) == true
    ensures Planned(plan, Apply(s, a))
  {
    hide HasKey, Boundary, RunsOf, WithRow, RecoverPc;
    if a.ChooseNotRun? {
      WithRowInPlan(plan, s.process.mem.rows, Row(a.key, None));
    } else if a.Recover? {
      RecoverInPlan(plan, s.process.mem, s.process.mem.pending.value, s.world);
    } else if a.ChooseRun? || a.ChooseDone? || a.PassStartBoundary? || a.Create? {
      CreationKeepsPlan(server, plan, s, a);
    } else {
      PostKeepsPlan(server, plan, s, a);
    }
  }

  lemma CreationKeepsPlan(server: Server, plan: set<Key>, s: State, a: Action)
    requires a.ChooseRun? || a.ChooseDone? || a.PassStartBoundary? || a.Create?
    requires Planned(plan, s) && Enabled(server, plan, s, a) == true
    ensures Planned(plan, Apply(s, a))
  {
    hide HasKey, Boundary;
  }

  lemma PostKeepsPlan(server: Server, plan: set<Key>, s: State, a: Action)
    requires a.Register? || a.Submit? || a.Post? || a.RespondOk? || a.RespondError?
    requires Planned(plan, s) && Enabled(server, plan, s, a) == true
    ensures Planned(plan, Apply(s, a))
  {
  }

  lemma WithRowInPlan(plan: set<Key>, rows: seq<Row>, row: Row)
    requires row.key in plan && forall i :: 0 <= i < |rows| ==> rows[i].key in plan
    ensures forall i :: 0 <= i < |WithRow(rows, row)| ==> WithRow(rows, row)[i].key in plan
  {
  }

  lemma RecoverInPlan(plan: set<Key>, mem: Journal, p: Pending, w: World)
    ensures PcInPlan(plan, RecoverPc(mem, p, w))
  {
    hide RunsOf, HasKey;
  }

  lemma RestKeepsPlan(server: Server, plan: set<Key>, s: State, a: Action)
    requires Planned(plan, s) && !IsOuter(a) && !IsAdmission(a) && Enabled(server, plan, s, a) == true
    ensures Planned(plan, Apply(s, a))
  {
    hide HasKey, Boundary, RunsOf, Merged;
  }

  lemma {:induction false} RunKeepsPlan(server: Server, plan: set<Key>, actions: seq<Action>, k: nat)
    requires IsRun(server, plan, actions) && k <= |actions|
    ensures Planned(plan, StateAfter(actions[..k]))
  {
    if k > 0 {
      hide Enabled, Apply, Planned;
      RunKeepsPlan(server, plan, actions, k - 1);
      RunStep(server, plan, actions, k);
      StepKeepsPlan(server, plan, StateAfter(actions[..k - 1]), actions[k - 1]);
    }
  }

  /** Every run ever admitted, and every row, is of a key of the plan. */
  lemma OnlyPlanned(server: Server, plan: set<Key>, s: State)
    requires Reaches(server, plan, s)
    ensures forall r :: r in s.world.admitted ==> s.world.admitted[r].key in plan
    ensures forall i :: 0 <= i < |s.disk.rows| ==> s.disk.rows[i].key in plan
  {
    hide IsRun;
    var actions :| IsRun(server, plan, actions) && StateAfter(actions) == s;
    RunKeepsPlan(server, plan, actions, |actions|);
    assert actions[..|actions|] == actions;
  }
}
