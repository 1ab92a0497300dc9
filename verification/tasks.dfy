/** Starting and stopping the RX task from one control thread while RX tasks come and go, one GPIO
    call or field access at a time. */
module Tasks {
  /** Where a task is in w5500_mac_rx_task. */
  datatype Pc =
    // w5500_driver_register_interrupt_task
    | InstallService | DropHandler | SetType | SetHandle | AddHandler | Enable
    // what becomes of the RX task if that fails
    | Abandon | Unstart
    // the RX task's loops, the only place from which the ring is touched
    | Loop
    // w5500_driver_unregister_interrupt_task, then rx_task_handle
    | Disable | Remove | Forget | Leave
    | Gone

  /** Where the control thread is: after the handle check in w5500_mac_start_rx_task, or inside
      w5500_mac_stop. */
  datatype Control = Ready | Creating | Disabling

  /** Tasks are numbered from 1 in the order of their creation; 0 is NULL. `rxTask` is
      rx_task_handle and `irqTask` is interrupt_task_handle. */
  datatype Life = Life(
    tasks: seq<Pc>, rxTask: nat, irqTask: nat,
    service: bool, handler: bool, enabled: bool,
    started: bool, control: Control)

  predicate Untouched(l: Life) {
    l.tasks == [] && l.rxTask == 0 && l.irqTask == 0 && l.control == Ready
  }

  datatype Action =
    | Task(id: nat, ok: bool)     // a step of a task; `ok` is the outcome of its GPIO call
    | Start | Stop
    | Go(ok: bool)                // the control thread goes on; `ok` is the outcome of its call

  /** Whether a task still counts on rx_task_handle being its own. */
  predicate Live(pc: Pc) { !pc.Unstart? && !pc.Gone? }

  /** Task `id` gets to `next`. */
  function At(l: Life, id: nat, next: Pc): Life
    requires 0 < id <= |l.tasks|
  {
    l.(tasks := l.tasks[id - 1 := next])
  }

  /** What a step leaves alone: only the RX task itself moves, and rx_task_handle changes exactly when
      the RX task gives it up. */
  predicate OnlyMoves(l: Life, u: Life, id: nat)
    requires 0 < id <= |l.tasks|
  {
    && |u.tasks| == |l.tasks| && u.tasks == l.tasks[id - 1 := u.tasks[id - 1]] && u.control == l.control
    && var p, q := l.tasks[id - 1], u.tasks[id - 1];
       if p.Abandon? || p.Leave? then u.rxTask == 0 && !Live(q)
       else u.rxTask == l.rxTask && (Live(q) ==> Live(p))
  }

  function TaskStep(l: Life, id: nat, ok: bool): (u: Life)
    requires 0 < id <= |l.tasks|
    ensures OnlyMoves(l, u, id)
  {
    match l.tasks[id - 1]
    case InstallService =>
      if l.service || ok then At(l.(service := true), id, DropHandler) else At(l, id, Abandon)
    case DropHandler => At(l.(handler := false), id, SetType)
    case SetType => At(l, id, if ok then SetHandle else Abandon)
    case SetHandle => At(l.(irqTask := id), id, AddHandler)
    case AddHandler => if ok then At(l.(handler := true), id, Enable) else At(l, id, Abandon)
    case Enable =>
      if ok then At(l.(enabled := true), id, Loop)
      else At(l.(handler := false, irqTask := 0), id, Abandon)
    case Abandon => At(l.(rxTask := 0), id, Unstart)
    case Unstart => At(l.(started := false), id, Gone)
    case Loop => if l.started then l else At(l, id, Disable)
    case Disable => if ok then At(l.(enabled := false), id, Remove) else At(l, id, Leave)
    case Remove => At(l.(handler := false), id, Forget)
    case Forget => At(l.(irqTask := 0), id, Leave)
    case Leave => At(l.(rxTask := 0), id, Gone)
    case Gone => l
  }

  function Step(l: Life, a: Action): Life {
    match a
    case Task(id, ok) => if 0 < id <= |l.tasks| then TaskStep(l, id, ok) else l
    case Start =>
      if l.control != Ready then l
      else if l.rxTask != 0 then l.(started := true)
      else l.(started := true, control := Creating)
    case Stop => if l.control != Ready || !l.started then l else l.(started := false, control := Disabling)
    case Go(ok) =>
      match l.control
      case Ready => l
      case Creating =>
        if ok then l.(tasks := l.tasks + [InstallService], rxTask := |l.tasks| + 1, control := Ready)
        else l.(started := false, rxTask := 0, control := Ready)
      case Disabling => l.(enabled := l.enabled && !ok, control := Ready)
  }

  function Run(l: Life, actions: seq<Action>): Life
    decreases |actions|
  {
    if actions == [] then l else Run(Step(l, actions[0]), actions[1..])
  }

  // ---------- one consumer ----------

  predicate OneOwner(l: Life) {
    && (forall i | 0 <= i < |l.tasks| :: Live(l.tasks[i]) ==> l.rxTask == i + 1)
    && (l.control == Creating ==> l.rxTask == 0)
  }

  lemma StartsRight(l: Life)
    requires Untouched(l)
    ensures HandleRight(l)
  {
  }

  lemma TaskKeepsOwner(l: Life, u: Life, id: nat)
    requires OneOwner(l) && 0 < id <= |l.tasks| && OnlyMoves(l, u, id)
    ensures OneOwner(u)
  {
  }

  lemma ControlKeepsOwner(l: Life, a: Action)
    requires OneOwner(l) && !a.Task?
    ensures OneOwner(Step(l, a))
  {
  }

  lemma OneOwnerKept(l: Life, a: Action)
    requires OneOwner(l)
    ensures OneOwner(Step(l, a))
  {
    if !a.Task? {
      ControlKeepsOwner(l, a);
    } else if 0 < a.id <= |l.tasks| {
      TaskKeepsOwner(l, TaskStep(l, a.id, a.ok), a.id);
    }
  }

  /** Over all starts and stops, and however the tasks' exits fall in between, at most one task is
      in a position to touch the ring, and it is the one rx_task_handle names. */
  lemma {:induction false} OneConsumer(l: Life, actions: seq<Action>)
    requires OneOwner(l)
    ensures OneOwner(Run(l, actions))
    ensures var t := Run(l, actions).tasks;
            forall i, j | 0 <= i < |t| && 0 <= j < |t| :: t[i].Loop? && t[j].Loop? ==> i == j
    decreases |actions|
  {
    if actions != [] {
      OneOwnerKept(l, actions[0]);
      OneConsumer(Step(l, actions[0]), actions[1..]);
    }
  }

  // ---------- the interrupt handle ----------

  /** Between the write of interrupt_task_handle and its removal. */
  predicate Holding(pc: Pc) {
    pc.AddHandler? || pc.Enable? || pc.Loop? || pc.Disable? || pc.Remove? || pc.Forget?
  }

  /** The handle is NULL or names the live task. */
  predicate HandleLive(l: Life) {
    l.irqTask != 0 ==> l.irqTask <= |l.tasks| && Holding(l.tasks[l.irqTask - 1]) && l.rxTask == l.irqTask
  }

  /** The two exits that leave the handle behind. */
  predicate LeavesHandle(l: Life, a: Action) {
    a.Task? && !a.ok && 0 < a.id <= |l.tasks| && (l.tasks[a.id - 1].AddHandler? || l.tasks[a.id - 1].Disable?)
  }

  /** The handle is NULL, or names the live task; and it names every task that relies on it. */
  predicate HandleRight(l: Life) {
    && OneOwner(l) && HandleLive(l)
    && (forall i | 0 <= i < |l.tasks| :: Holding(l.tasks[i]) ==> l.irqTask == i + 1)
  }

  /** What one step of a task does to the handle and to its own need of it. */
  predicate MovesHandle(l: Life, u: Life, id: nat, ok: bool)
    requires 0 < id <= |l.tasks| == |u.tasks|
  {
    var p, q := l.tasks[id - 1], u.tasks[id - 1];
    if LeavesHandle(l, Task(id, ok)) then u.irqTask == id && !Holding(q)
    else if Holding(q) then u.irqTask == id && (Holding(p) || p.SetHandle?)
    else u.irqTask == (if Holding(p) then 0 else l.irqTask)
  }

  lemma RegisteringMovesHandle(l: Life, id: nat, ok: bool)
    requires 0 < id <= |l.tasks| && (Holding(l.tasks[id - 1]) ==> l.irqTask == id)
    requires var p := l.tasks[id - 1];
             p.InstallService? || p.DropHandler? || p.SetType? || p.SetHandle? || p.AddHandler? || p.Enable?
    ensures MovesHandle(l, TaskStep(l, id, ok), id, ok)
  {
  }

  lemma LeavingMovesHandle(l: Life, id: nat, ok: bool)
    requires 0 < id <= |l.tasks| && (Holding(l.tasks[id - 1]) ==> l.irqTask == id)
    requires var p := l.tasks[id - 1];
             p.Loop? || p.Disable? || p.Remove? || p.Forget? || !Live(p) || p.Abandon? || p.Leave?
    ensures MovesHandle(l, TaskStep(l, id, ok), id, ok)
  {
  }

  lemma HandleMoves(l: Life, id: nat, ok: bool)
    requires 0 < id <= |l.tasks| && (Holding(l.tasks[id - 1]) ==> l.irqTask == id)
    ensures MovesHandle(l, TaskStep(l, id, ok), id, ok)
  {
    var p := l.tasks[id - 1];
    if p.InstallService? || p.DropHandler? || p.SetType? || p.SetHandle? || p.AddHandler? || p.Enable? {
      RegisteringMovesHandle(l, id, ok);
    } else {
      LeavingMovesHandle(l, id, ok);
    }
  }

  lemma TaskKeepsHandle(l: Life, id: nat, ok: bool)
    requires HandleRight(l) && 0 < id <= |l.tasks|
    ensures HandleRight(TaskStep(l, id, ok)) <==> !LeavesHandle(l, Task(id, ok))
  {
    var u := TaskStep(l, id, ok);
    HandleMoves(l, id, ok);
    TaskKeepsOwner(l, u, id);
    if l.irqTask != 0 && l.irqTask != id {
      assert !Live(l.tasks[id - 1]);
    }
  }

  lemma ControlKeepsHandle(l: Life, a: Action)
    requires HandleRight(l) && !a.Task?
    ensures HandleRight(Step(l, a))
  {
    ControlKeepsOwner(l, a);
  }

  /** A step keeps the interrupt handle right exactly if it is not one of the two exits. */
  lemma HandleExact(l: Life, a: Action)
    requires HandleRight(l)
    ensures HandleRight(Step(l, a)) <==> !LeavesHandle(l, a)
  {
    if !a.Task? {
      ControlKeepsHandle(l, a);
    } else if 0 < a.id <= |l.tasks| {
      TaskKeepsHandle(l, a.id, a.ok);
    }
  }

  predicate NeverLeaves(l: Life, actions: seq<Action>)
    decreases |actions|
  {
    actions == [] || (!LeavesHandle(l, actions[0]) && NeverLeaves(Step(l, actions[0]), actions[1..]))
  }

  lemma {:induction false} HandleRun(l: Life, actions: seq<Action>)
    requires HandleRight(l) && NeverLeaves(l, actions)
    ensures HandleRight(Run(l, actions))
    decreases |actions|
  {
    if actions != [] {
      HandleExact(l, actions[0]);
      HandleRun(Step(l, actions[0]), actions[1..]);
    }
  }

  /** After either exit the RX task is soon deleted, and the handle still names it. */
  lemma HandleDangles(l: Life, id: nat)
    requires HandleRight(l) && 0 < id <= |l.tasks| && (l.tasks[id - 1].AddHandler? || l.tasks[id - 1].Disable?)
    ensures var u := TaskStep(TaskStep(TaskStep(l, id, false), id, true), id, true);
            u.tasks[id - 1].Gone? && u.irqTask == id
  {
  }

  // ---------- stop and start in quick succession ----------

  /** Task `id` takes a step for each outcome in `oks`, while the control thread does nothing. */
  function TaskRun(l: Life, id: nat, oks: seq<bool>): (u: Life)
    requires 0 < id <= |l.tasks|
    ensures |u.tasks| == |l.tasks|
    decreases |oks|
  {
    if oks == [] then l else TaskRun(TaskStep(l, id, oks[0]), id, oks[1..])
  }

  /** Started and running, but with the pin interrupt disabled and nobody left to enable it. */
  predicate Deaf(l: Life, id: nat)
    requires 0 < id <= |l.tasks|
  {
    l.started && !l.enabled && l.tasks[id - 1].Loop?
  }

  /** Started, but with no task left to run. */
  predicate Lost(l: Life, id: nat)
    requires 0 < id <= |l.tasks|
  {
    l.started && l.tasks[id - 1].Gone? && l.rxTask == 0
  }

  /** On the way out of w5500_mac_rx_task. */
  predicate Leaving(pc: Pc) { pc.Disable? || pc.Remove? || pc.Forget? || pc.Leave? }

  /** How many steps a task is from its end. */
  function Left(pc: Pc): nat {
    match pc
    case Disable => 4
    case Remove => 3
    case Forget => 2
    case Leave => 1
    case _ => 0
  }

  lemma {:induction false} LeavingEnds(l: Life, id: nat, oks: seq<bool>)
    requires 0 < id <= |l.tasks| && l.started && |oks| >= Left(l.tasks[id - 1])
    requires Leaving(l.tasks[id - 1]) || Lost(l, id)
    ensures Lost(TaskRun(l, id, oks), id)
    decreases |oks|
  {
    if oks != [] {
      LeavingEnds(TaskStep(l, id, oks[0]), id, oks[1..]);
    }
  }

  /** A task that has not left its loops yet keeps a start, or takes `started` back. */
  lemma {:induction false} StayingIsKept(l: Life, id: nat, oks: seq<bool>)
    requires 0 < id <= |l.tasks| && Kept(l, id)
    ensures Kept(TaskRun(l, id, oks), id)
    decreases |oks|
  {
    if oks != [] {
      StayingIsKept(TaskStep(l, id, oks[0]), id, oks[1..]);
    }
  }

  predicate Kept(l: Life, id: nat)
    requires 0 < id <= |l.tasks|
  {
    !Lost(l, id) && !Leaving(l.tasks[id - 1]) && (l.started || l.tasks[id - 1].Gone?)
  }

  /** A start is lost exactly if it finds the old task past its loops: whatever the outcomes of the
      remaining calls, that task ends with `started` set and no task left. */
  lemma RestartIsLost(l: Life, oks: seq<bool>)
    requires OneOwner(l) && l.control == Ready && 0 < l.rxTask <= |l.tasks| && Live(l.tasks[l.rxTask - 1])
    requires |oks| >= 4
    ensures Lost(TaskRun(Step(l, Start), l.rxTask, oks), l.rxTask) <==> Leaving(l.tasks[l.rxTask - 1])
  {
    if Leaving(l.tasks[l.rxTask - 1]) {
      LeavingEnds(Step(l, Start), l.rxTask, oks);
    } else {
      StayingIsKept(Step(l, Start), l.rxTask, oks);
    }
  }

  /** A start that finds a task whose registration has failed succeeds, and that task takes it back. */
  lemma RestartIsUndone(l: Life, ok: bool)
    requires l.control == Ready && 0 < l.rxTask <= |l.tasks| && l.tasks[l.rxTask - 1].Abandon?
    ensures var u := TaskStep(TaskStep(Step(l, Start), l.rxTask, ok), l.rxTask, ok);
            Step(l, Start).started && !u.started && u.rxTask == 0 && u.tasks[l.rxTask - 1].Gone?
  {
  }

  lemma {:induction false} DeafStays(l: Life, id: nat, oks: seq<bool>)
    requires 0 < id <= |l.tasks| && l.started && l.tasks[id - 1].Loop?
    ensures TaskRun(l, id, oks) == l
    decreases |oks|
  {
    if oks != [] {
      assert l.tasks[id - 1 := Loop] == l.tasks;
      DeafStays(TaskStep(l, id, oks[0]), id, oks[1..]);
    }
  }

  /** A task that gets into its loops from registration has enabled the interrupt. */
  lemma {:induction false} RegisteringHears(l: Life, id: nat, oks: seq<bool>)
    requires 0 < id <= |l.tasks| && !l.tasks[id - 1].Loop?
    ensures !Deaf(TaskRun(l, id, oks), id)
    decreases |oks|
  {
    if oks != [] {
      var u := TaskStep(l, id, oks[0]);
      if u.tasks[id - 1].Loop? && u.started {
        DeafStays(u, id, oks[1..]);
      } else if u.tasks[id - 1].Loop? {
        NotStarted(u, id, oks[1..]);
      } else {
        RegisteringHears(u, id, oks[1..]);
      }
    }
  }

  lemma {:induction false} NotStarted(l: Life, id: nat, oks: seq<bool>)
    requires 0 < id <= |l.tasks| && !l.started
    ensures !TaskRun(l, id, oks).started
    decreases |oks|
  {
    if oks != [] {
      NotStarted(TaskStep(l, id, oks[0]), id, oks[1..]);
    }
  }

  /** A stop and a start in quick succession, `ok` being the outcome of the stop's GPIO call, leave
      a task deaf exactly if they find it in its loops and its interrupt is, or has been, disabled;
      and it then stays deaf. */
  lemma RestartIsDeaf(l: Life, ok: bool, oks: seq<bool>)
    requires l.started && l.control == Ready && 0 < l.rxTask <= |l.tasks|
    ensures var u := TaskRun(Step(Step(Step(l, Stop), Go(ok)), Start), l.rxTask, oks);
            Deaf(u, l.rxTask) <==> l.tasks[l.rxTask - 1].Loop? && (ok || !l.enabled)
  {
    var r := Step(Step(Step(l, Stop), Go(ok)), Start);
    if l.tasks[l.rxTask - 1].Loop? {
      DeafStays(r, l.rxTask, oks);
    } else {
      RegisteringHears(r, l.rxTask, oks);
    }
  }

  // ---------- a start and a stop by themselves ----------

  /** In its loops, with everything set up for it. */
  predicate Serving(l: Life, id: nat)
    requires 0 < id <= |l.tasks|
  {
    l.started && l.rxTask == id && l.tasks[id - 1].Loop? && l.irqTask == id && l.handler && l.enabled
  }

  lemma Steps(l: Life, id: nat, oks: seq<bool>)
    requires 0 < id <= |l.tasks| && oks != []
    ensures TaskRun(l, id, oks) == TaskRun(TaskStep(l, id, oks[0]), id, oks[1..])
    ensures forall i | 0 <= i < |oks| - 1 :: oks[1..][i] == oks[i + 1]
  {
  }

  /** A start that finds no task creates one, and that task, left alone, gets into its loops with
      everything set up exactly if none of its GPIO calls fails that counts. */
  lemma StartExactly(l: Life, oks: seq<bool>)
    requires l.control == Ready && l.rxTask == 0 && |oks| == 6
    ensures var u, id := Step(Step(l, Start), Go(true)), |l.tasks| + 1;
            && u.started && u.rxTask == id == |u.tasks|
            && (Serving(TaskRun(u, id, oks), id) <==> (l.service || oks[0]) && oks[2] && oks[4] && oks[5])
  {
    var u, id := Step(Step(l, Start), Go(true)), |l.tasks| + 1;
    assert u == l.(tasks := l.tasks + [InstallService], started := true, rxTask := id);
    if (l.service || oks[0]) && oks[2] {
      var u3 := GetsTo(u, id, oks);
      RegistersExactly(u3, id, oks[3..]);
      RunSplits(u, id, oks, u3);
    } else {
      NeverServes(u, id, oks);
    }
  }

  /** The first half of a registration. */
  lemma GetsTo(u: Life, id: nat, oks: seq<bool>) returns (u3: Life)
    requires 0 < id <= |u.tasks| && u.tasks[id - 1].InstallService? && |oks| == 6
    requires (u.service || oks[0]) && oks[2] && u.started && u.rxTask == id
    ensures u3 == TaskStep(TaskStep(TaskStep(u, id, oks[0]), id, oks[1]), id, oks[2])
    ensures u3.tasks[id - 1].SetHandle? && |u3.tasks| == |u.tasks| && u3.started && u3.rxTask == id
  {
    u3 := TaskStep(TaskStep(TaskStep(u, id, oks[0]), id, oks[1]), id, oks[2]);
  }

  lemma RunSplits(u: Life, id: nat, oks: seq<bool>, u3: Life)
    requires 0 < id <= |u.tasks| && |oks| == 6
    requires u3 == TaskStep(TaskStep(TaskStep(u, id, oks[0]), id, oks[1]), id, oks[2])
    ensures TaskRun(u, id, oks) == TaskRun(u3, id, oks[3..])
  {
    Steps(u, id, oks);
    Steps(TaskStep(u, id, oks[0]), id, oks[1..]);
    Steps(TaskStep(TaskStep(u, id, oks[0]), id, oks[1]), id, oks[1..][1..]);
    assert oks[1..][1..][1..] == oks[3..];
  }

  /** The second half. */
  lemma RegistersExactly(u: Life, id: nat, oks: seq<bool>)
    requires 0 < id <= |u.tasks| && u.tasks[id - 1].SetHandle? && |oks| == 3 && u.started && u.rxTask == id
    ensures Serving(TaskRun(u, id, oks), id) <==> oks[1] && oks[2]
  {
    var u1 := TaskStep(u, id, oks[0]);
    var u2 := TaskStep(u1, id, oks[1]);
    Steps(u, id, oks);
    Steps(u1, id, oks[1..]);
    Steps(u2, id, oks[1..][1..]);
    assert TaskRun(TaskStep(u2, id, oks[2]), id, []) == TaskStep(u2, id, oks[2]);
  }

  /** A task whose registration has failed does not get into its loops. */
  lemma {:induction false} FailedStays(l: Life, id: nat, oks: seq<bool>)
    requires 0 < id <= |l.tasks|
    requires var p := l.tasks[id - 1]; p.Abandon? || p.Unstart? || p.Gone?
    ensures !TaskRun(l, id, oks).tasks[id - 1].Loop?
    decreases |oks|
  {
    if oks != [] {
      FailedStays(TaskStep(l, id, oks[0]), id, oks[1..]);
    }
  }

  lemma NeverServes(u: Life, id: nat, oks: seq<bool>)
    requires 0 < id <= |u.tasks| && u.tasks[id - 1].InstallService? && |oks| == 6
    requires !((u.service || oks[0]) && oks[2])
    ensures !Serving(TaskRun(u, id, oks), id)
  {
    var u1 := TaskStep(u, id, oks[0]);
    Steps(u, id, oks);
    if !u.service && !oks[0] {
      FailedStays(u1, id, oks[1..]);
    } else {
      var u2 := TaskStep(u1, id, oks[1]);
      Steps(u1, id, oks[1..]);
      Steps(u2, id, oks[1..][1..]);
      FailedStays(TaskStep(u2, id, oks[2]), id, oks[1..][1..][1..]);
    }
  }

  /** A stop that finds the task in its loops: left alone the task leaves and is forgotten, and its
      interrupt and handler with it exactly if its own GPIO call succeeds. */
  lemma StopExactly(l: Life, id: nat, ok: bool, ok1: bool)
    requires 0 < id <= |l.tasks| && Serving(l, id) && l.control == Ready
    ensures var u0 := TaskStep(Step(Step(l, Stop), Go(ok)), id, true);
            var u := TaskStep(TaskStep(TaskStep(TaskStep(u0, id, ok1), id, true), id, true), id, true);
            && !u0.started && u0.tasks[id - 1].Disable?
            && (ok1 ==> u.tasks[id - 1].Gone? && u.rxTask == 0 && u.irqTask == 0 && !u.handler && !u.enabled)
            && (!ok1 ==> u.tasks[id - 1].Gone? && u.rxTask == 0 && u.irqTask == id && u.handler && u.enabled == !ok)
  {
    var u0 := TaskStep(Step(Step(l, Stop), Go(ok)), id, true);
    var u1 := TaskStep(u0, id, ok1);
    var u2 := TaskStep(u1, id, true);
  }
}
