// Signal handling around a scenario: contexts, the rollback lock and handler registration,
// interleaved one field access at a time.

module Signals {
  import opened Options

  type Signal = nat

  /** The two parts of a context, and the telemetry object that goes with it. Empty strings and
      telemetry 0 stand for every value that Python's truth test rejects. */
  datatype Context = Context(uuid: string, scenarioType: string, telemetry: nat)

  const NO_CONTEXT := Context("", "", 0)

  datatype Pair = Pair(uuid: string, scenarioType: string)

  /** What the interpreter does on a signal. `Krkn` is this class's own handler. */
  datatype Disposition = Krkn | Default | Ignore | Foreign(id: nat)

  /** Where the ordinary code of a thread stands; each value names the step it is about to take. */
  datatype MainPc =
    | Idle
    | SetUuid | SetType | SetTelemetry
    | RegisterLock | RegisterCheck | RegisterInstall(k: nat) | RegisterSave(k: nat, prior: Disposition)
    | RegisterFlag | RegisterUnlock
    | Body
    | ClearUuid | ClearType | ClearTelemetry

  datatype HandlerPc =
    | GetUuid | GetType | GetTelemetry | Check | TryLock
    | Rollback | ResetUuid | ResetType | ResetTelemetry | Unlock | Chain

  /** A stack frame. A handler frame keeps what it read in `read` and whether the rollback raised. */
  datatype Frame =
    | Main(context: Context, at: MainPc)
    | Handler(signal: Signal, read: Context, pc: HandlerPc, failed: bool)

  /** A thread: its thread-local fields and its stack, newest frame last. */
  datatype Thread = Thread(local: Context, stack: seq<Frame>)

  datatype Holder = Holder(thread: nat, depth: nat)

  /** State shared by the threads. The lock has no owner in Python; `lock` names the frame that
      took it, but no step looks further than whether it is free. `cutContext`, `cutRegistration`,
      `supplied` and `rollbacks` are history. */
  datatype Shared = Shared(
    lock: Option<Holder>,
    installed: bool,
    originals: map<Signal, Disposition>,
    table: map<Signal, Disposition>,
    alive: bool,
    cutContext: bool,
    cutRegistration: bool,
    supplied: set<Pair>,
    rollbacks: seq<Pair>)

  datatype State = State(shared: Shared, threads: seq<Thread>)

  /** What the scheduler and the outside world decide. */
  datatype Choice =
    | Go                              // the newest frame takes its ordinary step
    | Enter(context: Context)         // ordinary code opens a signal context
    | Fail                            // the step raises: installing a handler, or a rollback
    | Raise(depth: nat, stays: bool)  // the exception of a rollback or a chained handler; frame `depth` catches it
    | Strike                          // an exception of foreign origin hits ordinary code
    | Deliver(signal: Signal)
    | Install(signal: Signal, disposition: Disposition)  // other code changes a handler

  function PairOf(c: Context): Pair { Pair(c.uuid, c.scenarioType) }

  predicate Complete(c: Context) { c.uuid != "" && c.scenarioType != "" && c.telemetry != 0 }

  predicate InLock(f: Frame)
  {
    match f
    case Main(_, at) =>
      at.RegisterCheck? || at.RegisterInstall? || at.RegisterSave? || at.RegisterFlag? || at.RegisterUnlock?
    case Handler(_, _, pc, _) =>
      pc.Rollback? || pc.ResetUuid? || pc.ResetType? || pc.ResetTelemetry? || pc.Unlock?
  }

  /** An exception in the code of `signal_context` itself would leave a scenario type and a telemetry
      object behind. */
  predicate LeavesContext(local: Context) { local.scenarioType != "" && local.telemetry != 0 }

  /** It would leave a registration that has begun to install handlers and has not said so. */
  predicate LeavesHandlers(at: MainPc)
  {
    (at.RegisterInstall? && at.k > 0) || at.RegisterSave? || at.RegisterFlag?
  }

  // ---- Steps of ordinary code

  /** The shared state after an exception has left `signal_context` at `f`. */
  function Struck(sh: Shared, local: Context, f: Frame): Shared
    requires f.Main?
  {
    sh.(cutContext := sh.cutContext || LeavesContext(local),
        cutRegistration := sh.cutRegistration || LeavesHandlers(f.at),
        lock := if InLock(f) then None else sh.lock)
  }

  datatype MainResult = MainResult(shared: Shared, local: Context, frame: Frame)

  function MainNext(signals: seq<Signal>, me: Holder, sh: Shared, local: Context, f: Frame,
                    c: Choice): Option<MainResult>
    requires f.Main?
  {
    var to := (at: MainPc) => Some(MainResult(sh, local, f.(at := at)));
    if c.Strike? then
      if f.at.Idle? then Some(MainResult(sh, local, f))
      else if f.at.Body? then to(ClearUuid)
      else
        // leaves `signal_context` from outside its try block; a held lock is released by `with`
        Some(MainResult(Struck(sh, local, f), local, Main(NO_CONTEXT, Idle)))
    else if c.Enter? then
      if f.at.Idle? then
        Some(MainResult(sh.(supplied := sh.supplied + {PairOf(c.context)}), local, Main(c.context, SetUuid)))
      else None
    else if c.Fail? then
      match f.at
      case RegisterInstall(k) => if k < |signals| then to(RegisterInstall(k + 1)) else None
      case _ => None
    else if !c.Go? then None
    else
      match f.at
      case Idle => to(Idle)
      case SetUuid => Some(MainResult(sh, local.(uuid := f.context.uuid), f.(at := SetType)))
      case SetType => Some(MainResult(sh, local.(scenarioType := f.context.scenarioType), f.(at := SetTelemetry)))
      case SetTelemetry => Some(MainResult(sh, local.(telemetry := f.context.telemetry), f.(at := RegisterLock)))
      case RegisterLock =>
        if sh.lock.None? then Some(MainResult(sh.(lock := Some(me)), local, f.(at := RegisterCheck))) else None
      case RegisterCheck => to(if sh.installed then RegisterUnlock else RegisterInstall(0))
      case RegisterInstall(k) =>
        if k >= |signals| then to(RegisterFlag)
        else
          var prior := if signals[k] in sh.table then sh.table[signals[k]] else Default;
          Some(MainResult(sh.(table := sh.table[signals[k] := Krkn]), local, f.(at := RegisterSave(k, prior))))
      case RegisterSave(k, prior) =>
        if k >= |signals| then None
        else
          Some(MainResult(sh.(originals := sh.originals[signals[k] := prior]), local, f.(at := RegisterInstall(k + 1))))
      case RegisterFlag => Some(MainResult(sh.(installed := true), local, f.(at := RegisterUnlock)))
      case RegisterUnlock => Some(MainResult(sh.(lock := None), local, f.(at := Body)))
      case Body => to(ClearUuid)
      case ClearUuid => Some(MainResult(sh, local.(uuid := ""), f.(at := ClearType)))
      case ClearType => Some(MainResult(sh, local.(scenarioType := ""), f.(at := ClearTelemetry)))
      case ClearTelemetry => Some(MainResult(sh, local.(telemetry := f.context.telemetry), Main(NO_CONTEXT, Idle)))
  }

  // ---- Steps of the signal handler

  datatype HandlerResult =
    | Stay(shared: Shared, local: Context, frame: Frame)
    | Return(shared: Shared)
    | Throw(shared: Shared)

  function HandlerNext(me: Holder, sh: Shared, local: Context, f: Frame, c: Choice): Option<HandlerResult>
    requires f.Handler?
  {
    var to := (pc: HandlerPc) => Some(Stay(sh, local, f.(pc := pc)));
    if c.Raise? then
      // the rollback raised, or the foreign Python function reached from `Chain` does
      if f.pc.Chain? && (f.failed || (f.signal in sh.originals && sh.originals[f.signal].Foreign?)) then Some(Throw(sh))
      else None
    else if c.Fail? then
      if f.pc.Rollback? then
        Some(Stay(sh.(rollbacks := sh.rollbacks + [PairOf(f.read)]), local, f.(pc := ResetUuid, failed := true)))
      else None
    else if !c.Go? then None
    else
      match f.pc
      case GetUuid => Some(Stay(sh, local, f.(read := f.read.(uuid := local.uuid), pc := GetType)))
      case GetType => Some(Stay(sh, local, f.(read := f.read.(scenarioType := local.scenarioType), pc := GetTelemetry)))
      case GetTelemetry => Some(Stay(sh, local, f.(read := f.read.(telemetry := local.telemetry), pc := Check)))
      case Check => if Complete(f.read) then to(TryLock) else Some(Return(sh))
      case TryLock =>
        if sh.lock.None? then Some(Stay(sh.(lock := Some(me)), local, f.(pc := Rollback))) else Some(Return(sh))
      case Rollback => Some(Stay(sh.(rollbacks := sh.rollbacks + [PairOf(f.read)]), local, f.(pc := ResetUuid)))
      case ResetUuid => Some(Stay(sh, local.(uuid := ""), f.(pc := ResetType)))
      case ResetType => Some(Stay(sh, local.(scenarioType := ""), f.(pc := ResetTelemetry)))
      case ResetTelemetry => Some(Stay(sh, local.(telemetry := f.read.telemetry), f.(pc := Unlock)))
      case Unlock => Some(Stay(sh.(lock := None), local, f.(pc := Chain)))
      case Chain =>
        if f.failed then Some(Throw(sh))
        else if f.signal !in sh.originals then Some(Return(sh))
        else
          match sh.originals[f.signal]
          case Default => Some(Return(sh.(table := sh.table[f.signal := Default], alive := false)))
          case Ignore => Some(Return(sh))
          case Foreign(_) => Some(Return(sh))
          // calling the saved handler means running this very handler again
          case Krkn => Some(Stay(sh, local, Handler(f.signal, NO_CONTEXT, GetUuid, false)))
  }

  /** An exception leaves the frames above `depth`. It may be caught by a foreign handler that a
      frame was chaining to, or by the scenario's own code; otherwise the finally block runs,
      or the context is left from code that has none. */
  function Unwind(th: Thread, depth: nat, stays: bool): Option<Thread>
    requires th.stack != [] && th.stack[0].Main?
  {
    if depth >= |th.stack| - 1 then None
    else if depth > 0 then
      if th.stack[depth].Handler? && th.stack[depth].pc.Chain? && !th.stack[depth].failed
      then Some(th.(stack := th.stack[..depth + 1])) else None
    else
      var m := th.stack[0];
      var m' := if m.at.Idle? then m
                else if m.at.Body? then (if stays then m else m.(at := ClearUuid))
                else Main(NO_CONTEXT, Idle);
      Some(th.(stack := [m']))
  }

  datatype ThreadResult = ThreadResult(shared: Shared, thread: Thread)

  function ThreadNext(signals: seq<Signal>, t: nat, sh: Shared, th: Thread, c: Choice): Option<ThreadResult>
    requires th.stack != [] && th.stack[0].Main? && forall i :: 0 < i < |th.stack| ==> th.stack[i].Handler?
  {
    var top := |th.stack| - 1;
    var f := th.stack[top];
    var me := Holder(t, top);
    if !sh.alive then None
    else if c.Install? then
      if c.disposition.Krkn? then None
      else Some(ThreadResult(sh.(table := sh.table[c.signal := c.disposition]), th))
    else if c.Deliver? then
      if c.signal in sh.table && sh.table[c.signal].Krkn?
      then Some(ThreadResult(sh, th.(stack := th.stack + [Handler(c.signal, NO_CONTEXT, GetUuid, false)])))
      else None
    else if top == 0 then
      match MainNext(signals, me, sh, th.local, f, c)
      case None => None
      case Some(r) => Some(ThreadResult(r.shared, Thread(r.local, [r.frame])))
    else
      match HandlerNext(me, sh, th.local, f, c)
      case None => None
      case Some(Stay(sh', local', f')) => Some(ThreadResult(sh', Thread(local', th.stack[top := f'])))
      case Some(Return(sh')) => Some(ThreadResult(sh', th.(stack := th.stack[..top])))
      case Some(Throw(sh')) =>
        var (depth, stays) := if c.Raise? then (c.depth, c.stays) else (0, false);
        match Unwind(th, depth, stays)
        case None => None
        case Some(th') => Some(ThreadResult(sh', th'))
  }

  predicate Shaped(th: Thread)
  {
    th.stack != [] && th.stack[0].Main? && forall i :: 0 < i < |th.stack| ==> th.stack[i].Handler?
  }

  /** One step of thread `t`, decided by `c`. */
  ghost predicate Step(signals: seq<Signal>, s: State, t: nat, c: Choice, s': State)
  {
    && t < |s.threads| && Shaped(s.threads[t])
    && var r := ThreadNext(signals, t, s.shared, s.threads[t], c);
       r.Some? && s' == State(r.value.shared, s.threads[t := r.value.thread])
  }

  ghost predicate Initial(s: State)
  {
    && (forall t :: 0 <= t < |s.threads| ==> s.threads[t] == Thread(NO_CONTEXT, [Main(NO_CONTEXT, Idle)]))
    && s.shared.lock.None? && !s.shared.installed && s.shared.originals == map[]
    && (forall g :: g in s.shared.table ==> !s.shared.table[g].Krkn?)
    && !s.shared.cutContext && !s.shared.cutRegistration && s.shared.supplied == {} && s.shared.rollbacks == []
  }

  // ---- The invariant

  /** Fields a reader can see hold what the open context supplied, or nothing. */
  predicate FromContext(v: Context, m: Frame)
    requires m.Main?
  {
    && (v.uuid == "" || v.uuid == m.context.uuid || m.at.Idle? || m.at.SetUuid?)
    && (v.scenarioType == "" || v.scenarioType == m.context.scenarioType)
    && (m.at.ClearType? || m.at.ClearTelemetry? ==> v.uuid == "")
    && (m.at.Idle? || m.at.SetUuid? || m.at.SetType? || m.at.ClearTelemetry? ==> v.scenarioType == "")
  }

  predicate HandlerOk(f: Frame, local: Context)
    requires f.Handler?
  {
    && (f.pc.GetUuid? ==> f.read == NO_CONTEXT)
    && (f.pc.GetType? ==> f.read.scenarioType == "")
    && (f.pc.TryLock? || InLock(f) || f.pc.Chain? ==> Complete(f.read))
    && (f.pc.ResetType? || f.pc.ResetTelemetry? || f.pc.Unlock? || f.pc.Chain? ==> local.uuid == "")
    && (f.pc.ResetTelemetry? || f.pc.Unlock? || f.pc.Chain? ==> local.scenarioType == "")
  }

  /** The thread's fields, and what its handlers have read of them, come from the open context. */
  predicate Warm(th: Thread)
    requires Shaped(th)
  {
    && FromContext(th.local, th.stack[0])
    && forall i :: 0 < i < |th.stack| ==>
         FromContext(th.stack[i].read, th.stack[0]) && HandlerOk(th.stack[i], th.local)
  }

  /** There is no telemetry object yet: whatever a cut has left in the other fields, no handler gets
      past its check before the next context has written its own type over it. */
  predicate ColdMain(local: Context, m: Frame)
    requires m.Main?
  {
    local.telemetry == 0 && (m.at.Idle? || m.at.SetUuid? || (m.at.SetType? && local.uuid == m.context.uuid))
  }

  predicate ColdHandler(f: Frame)
    requires f.Handler?
  {
    f.read.telemetry == 0 && (f.pc.GetUuid? || f.pc.GetType? || f.pc.GetTelemetry? || f.pc.Check?)
  }

  predicate Cold(th: Thread)
    requires Shaped(th)
  {
    ColdMain(th.local, th.stack[0]) && forall i :: 0 < i < |th.stack| ==> ColdHandler(th.stack[i])
  }

  predicate ContextOk(th: Thread)
    requires Shaped(th)
  {
    Warm(th) || Cold(th)
  }

  /** A handler that has cleared the uuid leaves it cleared. */
  predicate ClearedOk(th: Thread)
    requires Shaped(th)
  {
    forall i :: 0 < i < |th.stack| && HasCleared(th.stack[i].pc) ==> th.local.uuid == ""
  }

  predicate HasCleared(pc: HandlerPc) { pc.ResetType? || pc.ResetTelemetry? || pc.Unlock? || pc.Chain? }

  /** Below a handler that has, or has had, the lock no frame of its thread is inside it. */
  predicate StackOk(th: Thread)
    requires Shaped(th)
  {
    forall i, j :: 0 <= j < i < |th.stack| && (InLock(th.stack[i]) || th.stack[i].pc.Chain?) ==> !InLock(th.stack[j])
  }

  /** The lock is taken exactly when one frame is inside the guarded code, namely its holder. */
  ghost predicate LockOk(s: State)
  {
    && (forall t, i :: 0 <= t < |s.threads| && 0 <= i < |s.threads[t].stack| ==>
          (InLock(s.threads[t].stack[i]) <==> s.shared.lock == Some(Holder(t, i))))
    && (s.shared.lock.Some? ==>
          var h := s.shared.lock.value;
          h.thread < |s.threads| && h.depth < |s.threads[h.thread].stack|)
  }

  predicate NotKrkn(table: map<Signal, Disposition>, g: Signal) { g in table ==> !table[g].Krkn? }

  /** How far a frame has got with installing handlers. */
  function Progress(signals: seq<Signal>, f: Frame): nat
  {
    if f.Handler? then 0
    else match f.at
         case RegisterInstall(k) => k
         case RegisterSave(k, _) => k + 1
         case RegisterFlag => |signals|
         case _ => 0
  }

  predicate Installing(f: Frame) { f.Main? && (f.at.RegisterInstall? || f.at.RegisterSave? || f.at.RegisterFlag?) }

  ghost predicate HandlersOk(signals: seq<Signal>, sh: Shared, holder: Option<Frame>)
  {
    && (forall g :: g in sh.originals ==> !sh.originals[g].Krkn?)
    && (holder.Some? && Installing(holder.value) ==> !sh.installed)
    && (holder.Some? && holder.value.Main? && holder.value.at.RegisterSave? ==> !holder.value.at.prior.Krkn?)
    && (!sh.installed ==>
          forall k :: (if holder.Some? then Progress(signals, holder.value) else 0) <= k < |signals| ==>
                        NotKrkn(sh.table, signals[k]))
  }

  ghost function HolderFrame(s: State): Option<Frame>
    requires LockOk(s)
  {
    if s.shared.lock.None? then None
    else Some(s.threads[s.shared.lock.value.thread].stack[s.shared.lock.value.depth])
  }

  /** Every rollback used a supplied pair; an open context has been supplied. */
  ghost predicate HistoryOk(sh: Shared, threads: seq<Thread>)
  {
    && (forall p :: p in sh.rollbacks ==> p in sh.supplied)
    && (forall t :: 0 <= t < |threads| ==> OpenSupplied(sh, threads[t]))
  }

  predicate OpenSupplied(sh: Shared, th: Thread)
  {
    Shaped(th) && !th.stack[0].at.Idle? ==> PairOf(th.stack[0].context) in sh.supplied
  }

  ghost predicate Inv(signals: seq<Signal>, s: State)
  {
    && (forall t :: 0 <= t < |s.threads| ==>
         Shaped(s.threads[t]) && StackOk(s.threads[t]) && ThreadOk(signals, s.threads[t]))
    && LockOk(s)
    && (!s.shared.cutContext ==>
          (forall t :: 0 <= t < |s.threads| ==> ContextOk(s.threads[t])) && HistoryOk(s.shared, s.threads))
    && (!s.shared.cutRegistration ==> HandlersOk(signals, s.shared, HolderFrame(s)))
  }

  predicate ThreadOk(signals: seq<Signal>, th: Thread)
    requires Shaped(th)
  {
    SaveOk(signals, th) && ClearedOk(th)
  }

  /** A handler about to be saved belongs to a signal that is handled. */
  predicate SaveOk(signals: seq<Signal>, th: Thread)
    requires Shaped(th)
  {
    th.stack[0].at.RegisterSave? ==> th.stack[0].at.k < |signals|
  }

  lemma InitialInv(signals: seq<Signal>, s: State)
    requires Initial(s)
    ensures Inv(signals, s)
  {
  }

  // ---- One thread at a time

  /** How a step of frame `me` may change the lock. */
  predicate LockMove(me: Holder, before: Option<Holder>, after: Option<Holder>)
  {
    after == before || (before.None? && after == Some(me)) || (before == Some(me) && after.None?)
  }

  lemma MainLock(signals: seq<Signal>, me: Holder, sh: Shared, local: Context, f: Frame, c: Choice)
    requires f.Main? && MainNext(signals, me, sh, local, f, c).Some?
    requires InLock(f) <==> sh.lock == Some(me)
    ensures var r := MainNext(signals, me, sh, local, f, c).value;
            && r.frame.Main? && LockMove(me, sh.lock, r.shared.lock)
            && (InLock(r.frame) <==> r.shared.lock == Some(me))
  {
  }

  lemma HandlerLock(me: Holder, sh: Shared, local: Context, f: Frame, c: Choice)
    requires f.Handler? && HandlerNext(me, sh, local, f, c).Some?
    requires InLock(f) <==> sh.lock == Some(me)
    ensures var r := HandlerNext(me, sh, local, f, c).value;
            && LockMove(me, sh.lock, r.shared.lock)
            && match r
               case Stay(sh', _, f') =>
                 && f'.Handler? && (InLock(f') <==> sh'.lock == Some(me))
                 && (InLock(f') || f'.pc.Chain? ==> InLock(f) || sh.lock.None?)
               case Return(sh') => !InLock(f) && sh'.lock == sh.lock
               case Throw(sh') => f.pc.Chain? && sh' == sh
  {
  }

  /** The frames of thread `t` agree with the lock. */
  predicate Agrees(t: nat, lock: Option<Holder>, th: Thread)
  {
    && (forall i :: 0 <= i < |th.stack| ==> (InLock(th.stack[i]) <==> lock == Some(Holder(t, i))))
    && (lock.Some? && lock.value.thread == t ==> lock.value.depth < |th.stack|)
  }

  lemma StepLock(signals: seq<Signal>, t: nat, sh: Shared, th: Thread, c: Choice)
    requires Shaped(th) && StackOk(th) && Agrees(t, sh.lock, th)
    requires ThreadNext(signals, t, sh, th, c).Some?
    ensures var r := ThreadNext(signals, t, sh, th, c).value;
            && Shaped(r.thread) && StackOk(r.thread) && Agrees(t, r.shared.lock, r.thread)
            && exists d :: LockMove(Holder(t, d), sh.lock, r.shared.lock)
  {
    var r := ThreadNext(signals, t, sh, th, c).value;
    var top := |th.stack| - 1;
    var me := Holder(t, top);
    var f := th.stack[top];
    assert InLock(f) <==> sh.lock == Some(me);
    assert LockMove(me, sh.lock, r.shared.lock) by {
      if !c.Install? && !c.Deliver? {
        if top == 0 {
          MainLock(signals, me, sh, th.local, f, c);
        } else {
          HandlerLock(me, sh, th.local, f, c);
        }
      }
    }
    if c.Install? {
    } else if c.Deliver? {
      DeliverLock(t, sh, th, r.thread);
    } else if top == 0 {
      MainLock(signals, me, sh, th.local, f, c);
    } else {
      HandlerLock(me, sh, th.local, f, c);
      match HandlerNext(me, sh, th.local, f, c).value
      case Stay(sh', local', f') => StayLock(t, sh, th, sh', local', f');
      case Return(sh') => PopLock(t, sh, th, top);
      case Throw(sh') =>
        var (depth, stays) := if c.Raise? then (c.depth, c.stays) else (0, false);
        UnwindLock(t, sh, th, depth, stays);
    }
  }

  lemma DeliverLock(t: nat, sh: Shared, th: Thread, th': Thread)
    requires Shaped(th) && StackOk(th) && Agrees(t, sh.lock, th)
    requires exists g :: th' == th.(stack := th.stack + [Handler(g, NO_CONTEXT, GetUuid, false)])
    ensures Shaped(th') && StackOk(th') && Agrees(t, sh.lock, th')
  {
  }

  lemma StayLock(t: nat, sh: Shared, th: Thread, sh': Shared, local': Context, f': Frame)
    requires Shaped(th) && StackOk(th) && Agrees(t, sh.lock, th) && |th.stack| > 1
    requires var top := |th.stack| - 1;
             var me := Holder(t, top);
             && f'.Handler? && LockMove(me, sh.lock, sh'.lock) && (InLock(f') <==> sh'.lock == Some(me))
             && (InLock(f') || f'.pc.Chain? ==> InLock(th.stack[top]) || sh.lock.None? || th.stack[top].pc.Chain?)
    ensures var th' := Thread(local', th.stack[|th.stack| - 1 := f']);
            Shaped(th') && StackOk(th') && Agrees(t, sh'.lock, th')
  {
  }

  lemma PopLock(t: nat, sh: Shared, th: Thread, n: nat)
    requires Shaped(th) && StackOk(th) && Agrees(t, sh.lock, th) && 0 < n < |th.stack|
    requires forall i :: n <= i < |th.stack| ==> !InLock(th.stack[i])
    ensures var th' := th.(stack := th.stack[..n]); Shaped(th') && StackOk(th') && Agrees(t, sh.lock, th')
  {
  }

  lemma UnwindLock(t: nat, sh: Shared, th: Thread, depth: nat, stays: bool)
    requires Shaped(th) && StackOk(th) && Agrees(t, sh.lock, th) && |th.stack| > 1
    requires th.stack[|th.stack| - 1].pc.Chain? && Unwind(th, depth, stays).Some?
    ensures var th' := Unwind(th, depth, stays).value; Shaped(th') && StackOk(th') && Agrees(t, sh.lock, th')
  {
    var top := |th.stack| - 1;
    assert forall j :: 0 <= j < top ==> !InLock(th.stack[j]);
    if depth > 0 {
      PopLock(t, sh, th, depth + 1);
    }
  }

  lemma MainContext(signals: seq<Signal>, me: Holder, sh: Shared, local: Context, f: Frame, c: Choice)
    requires f.Main? && MainNext(signals, me, sh, local, f, c).Some? && FromContext(local, f)
    requires !MainNext(signals, me, sh, local, f, c).value.shared.cutContext
    ensures var r := MainNext(signals, me, sh, local, f, c).value;
            r.frame.Main? && (FromContext(r.local, r.frame) || ColdMain(r.local, r.frame))
  {
    if c.Go? {
      hide MainNext;
      MainGoContext(signals, me, sh, local, f);
    }
  }

  lemma MainGoContext(signals: seq<Signal>, me: Holder, sh: Shared, local: Context, f: Frame)
    requires f.Main? && MainNext(signals, me, sh, local, f, Go).Some? && FromContext(local, f)
    ensures var r := MainNext(signals, me, sh, local, f, Go).value;
            r.frame.Main? && FromContext(r.local, r.frame)
  {
  }

  lemma ColdMainStep(signals: seq<Signal>, me: Holder, sh: Shared, local: Context, f: Frame, c: Choice)
    requires f.Main? && MainNext(signals, me, sh, local, f, c).Some? && ColdMain(local, f)
    ensures var r := MainNext(signals, me, sh, local, f, c).value;
            r.frame.Main? && (FromContext(r.local, r.frame) || ColdMain(r.local, r.frame))
  {
  }

  lemma ColdHandlerStep(me: Holder, sh: Shared, local: Context, f: Frame, c: Choice)
    requires f.Handler? && HandlerNext(me, sh, local, f, c).Some? && ColdHandler(f) && local.telemetry == 0
    ensures var r := HandlerNext(me, sh, local, f, c).value;
            !r.Throw? && r.shared == sh && (r.Stay? ==> r.local == local && r.frame.Handler? && ColdHandler(r.frame))
  {
  }

  /** A handler frame reads what the context supplied, and only ever clears it. */
  lemma HandlerContext(me: Holder, sh: Shared, local: Context, f: Frame, c: Choice, m: Frame)
    requires f.Handler? && m.Main? && HandlerNext(me, sh, local, f, c).Some?
    requires FromContext(local, m) && FromContext(f.read, m) && HandlerOk(f, local)
    ensures match HandlerNext(me, sh, local, f, c).value
            case Stay(_, local', f') =>
              && f'.Handler? && FromContext(local', m) && FromContext(f'.read, m) && HandlerOk(f', local')
              && (local'.uuid == local.uuid || local'.uuid == "")
              && (local'.scenarioType == local.scenarioType || local'.scenarioType == "")
            case Return(_) => true
            case Throw(_) => local.uuid == "" && local.scenarioType == ""
  {
  }

  lemma StepContext(signals: seq<Signal>, t: nat, sh: Shared, th: Thread, c: Choice)
    requires Shaped(th) && ContextOk(th) && ThreadNext(signals, t, sh, th, c).Some?
    requires !ThreadNext(signals, t, sh, th, c).value.shared.cutContext
    ensures var r := ThreadNext(signals, t, sh, th, c).value; Shaped(r.thread) && ContextOk(r.thread)
  {
    hide ThreadNext, Warm, Cold;
    if Warm(th) {
      WarmStep(signals, t, sh, th, c);
    } else {
      ColdStep(signals, t, sh, th, c);
    }
  }

  lemma ColdStep(signals: seq<Signal>, t: nat, sh: Shared, th: Thread, c: Choice)
    requires Shaped(th) && Cold(th) && ThreadNext(signals, t, sh, th, c).Some?
    ensures var r := ThreadNext(signals, t, sh, th, c).value; Shaped(r.thread) && ContextOk(r.thread)
  {
    hide MainNext, HandlerNext, FromContext, HandlerOk;
    var top := |th.stack| - 1;
    var me := Holder(t, top);
    if !c.Install? && !c.Deliver? {
      if top == 0 {
        ColdMainStep(signals, me, sh, th.local, th.stack[0], c);
      } else {
        ColdHandlerStep(me, sh, th.local, th.stack[top], c);
      }
    }
  }

  lemma WarmStep(signals: seq<Signal>, t: nat, sh: Shared, th: Thread, c: Choice)
    requires Shaped(th) && Warm(th) && ThreadNext(signals, t, sh, th, c).Some?
    requires !ThreadNext(signals, t, sh, th, c).value.shared.cutContext
    ensures var r := ThreadNext(signals, t, sh, th, c).value; Shaped(r.thread) && ContextOk(r.thread)
  {
    hide MainNext, HandlerNext, Unwind, FromContext, HandlerOk;
    var top := |th.stack| - 1;
    var me := Holder(t, top);
    if c.Install? {
    } else if c.Deliver? {
      NewHandlerContext(c.signal, th.local, th.stack[0]);
    } else if top == 0 {
      MainContext(signals, me, sh, th.local, th.stack[0], c);
    } else {
      HandlerContext(me, sh, th.local, th.stack[top], c, th.stack[0]);
      if HandlerNext(me, sh, th.local, th.stack[top], c).value.Throw? {
        UnwindContext(th, if c.Raise? then c.depth else 0, c.Raise? && c.stays);
      } else if HandlerNext(me, sh, th.local, th.stack[top], c).value.Stay? {
        ClearedContext(th, HandlerNext(me, sh, th.local, th.stack[top], c).value.local);
      }
    }
  }

  lemma NewHandlerContext(g: Signal, local: Context, m: Frame)
    requires m.Main?
    ensures FromContext(NO_CONTEXT, m) && HandlerOk(Handler(g, NO_CONTEXT, GetUuid, false), local)
  {
  }

  /** The frames of a thread stay in order when its fields are cleared. */
  lemma ClearedContext(th: Thread, local': Context)
    requires Shaped(th) && Warm(th)
    requires local'.uuid == th.local.uuid || local'.uuid == ""
    requires local'.scenarioType == th.local.scenarioType || local'.scenarioType == ""
    ensures forall i :: 0 < i < |th.stack| ==> HandlerOk(th.stack[i], local')
  {
    hide FromContext;
  }

  lemma UnwindContext(th: Thread, depth: nat, stays: bool)
    requires Shaped(th) && Warm(th) && Unwind(th, depth, stays).Some?
    requires th.local.uuid == "" && th.local.scenarioType == ""
    ensures Shaped(Unwind(th, depth, stays).value) && Warm(Unwind(th, depth, stays).value)
  {
  }

  // ---- Registration

  predicate Distinct(signals: seq<Signal>)
  {
    forall i, j :: 0 <= i < j < |signals| ==> signals[i] != signals[j]
  }

  /** The frame that holds the lock once frame `me` has become `f`. */
  function HolderNow(lock: Option<Holder>, me: Holder, f: Frame, holder: Option<Frame>): Option<Frame>
  {
    if lock.None? then None else if lock == Some(me) then Some(f) else holder
  }

  lemma StepHandlers(signals: seq<Signal>, me: Holder, sh: Shared, local: Context, f: Frame, c: Choice,
                     holder: Option<Frame>)
    requires f.Main? && MainNext(signals, me, sh, local, f, c).Some?
    requires Distinct(signals)
    requires InLock(f) <==> sh.lock == Some(me)
    requires holder.Some? <==> sh.lock.Some?
    requires sh.lock == Some(me) ==> holder == Some(f)
    requires HandlersOk(signals, sh, holder)
    requires !MainNext(signals, me, sh, local, f, c).value.shared.cutRegistration
    ensures var r := MainNext(signals, me, sh, local, f, c).value;
            HandlersOk(signals, r.shared, HolderNow(r.shared.lock, me, r.frame, holder))
  {
    hide MainNext, HandlersOk;
    if Installing(f) {
      InstallingHandlers(signals, me, sh, local, f, c, holder);
    } else {
      QuietHandlers(signals, me, sh, local, f, c, holder);
    }
  }

  lemma InstallingHandlers(signals: seq<Signal>, me: Holder, sh: Shared, local: Context, f: Frame, c: Choice,
                           holder: Option<Frame>)
    requires f.Main? && MainNext(signals, me, sh, local, f, c).Some?
    requires Distinct(signals) && Installing(f)
    requires InLock(f) <==> sh.lock == Some(me)
    requires holder.Some? <==> sh.lock.Some?
    requires sh.lock == Some(me) ==> holder == Some(f)
    requires HandlersOk(signals, sh, holder)
    requires !MainNext(signals, me, sh, local, f, c).value.shared.cutRegistration
    ensures var r := MainNext(signals, me, sh, local, f, c).value;
            HandlersOk(signals, r.shared, HolderNow(r.shared.lock, me, r.frame, holder))
  {
  }

  lemma QuietHandlers(signals: seq<Signal>, me: Holder, sh: Shared, local: Context, f: Frame, c: Choice,
                      holder: Option<Frame>)
    requires f.Main? && MainNext(signals, me, sh, local, f, c).Some?
    requires !Installing(f)
    requires InLock(f) <==> sh.lock == Some(me)
    requires holder.Some? <==> sh.lock.Some?
    requires sh.lock == Some(me) ==> holder == Some(f)
    requires HandlersOk(signals, sh, holder)
    requires !MainNext(signals, me, sh, local, f, c).value.shared.cutRegistration
    ensures var r := MainNext(signals, me, sh, local, f, c).value;
            HandlersOk(signals, r.shared, HolderNow(r.shared.lock, me, r.frame, holder))
  {
  }

  lemma HandlerHandlers(signals: seq<Signal>, me: Holder, sh: Shared, local: Context, f: Frame, c: Choice,
                        holder: Option<Frame>)
    requires f.Handler? && HandlerNext(me, sh, local, f, c).Some?
    requires InLock(f) <==> sh.lock == Some(me)
    requires holder.Some? <==> sh.lock.Some?
    requires sh.lock == Some(me) ==> holder == Some(f)
    requires HandlersOk(signals, sh, holder)
    ensures match HandlerNext(me, sh, local, f, c).value
            case Stay(sh', _, f') =>
              HandlersOk(signals, sh', HolderNow(sh'.lock, me, f', holder))
            case Return(sh') => HandlersOk(signals, sh', holder)
            case Throw(sh') => sh' == sh
  {
  }

  /** The frame holding the lock after thread `t` has moved. */
  ghost function HolderAfter(s: State, t: nat, r: ThreadResult): Option<Frame>
    requires LockOk(s) && t < |s.threads|
    requires Agrees(t, r.shared.lock, r.thread)
  {
    if r.shared.lock.None? then None
    else if r.shared.lock.value.thread == t then Some(r.thread.stack[r.shared.lock.value.depth])
    else HolderFrame(s)
  }

  lemma ThreadHandlers(signals: seq<Signal>, s: State, t: nat, c: Choice)
    requires Inv(signals, s) && !s.shared.cutRegistration && t < |s.threads|
    requires ThreadNext(signals, t, s.shared, s.threads[t], c).Some?
    requires !ThreadNext(signals, t, s.shared, s.threads[t], c).value.shared.cutRegistration
    requires Distinct(signals)
    ensures var r := ThreadNext(signals, t, s.shared, s.threads[t], c).value;
            Agrees(t, r.shared.lock, r.thread) && HandlersOk(signals, r.shared, HolderAfter(s, t, r))
  {
    var sh, th := s.shared, s.threads[t];
    var top := |th.stack| - 1;
    var me := Holder(t, top);
    var f := th.stack[top];
    StepLock(signals, t, sh, th, c);
    if !c.Install? && !c.Deliver? {
      hide MainNext, HandlerNext, HandlersOk, ContextOk, HistoryOk;
      if top == 0 {
        MainLock(signals, me, sh, th.local, f, c);
        StepHandlers(signals, me, sh, th.local, f, c, HolderFrame(s));
      } else {
        HandlerLock(me, sh, th.local, f, c);
        HandlerHandlers(signals, me, sh, th.local, f, c, HolderFrame(s));
        if HandlerNext(me, sh, th.local, f, c).value.Throw? {
          assert forall j :: 0 <= j < |th.stack| ==> !InLock(th.stack[j]);
        }
      }
    }
  }

  lemma ThreadHistory(signals: seq<Signal>, t: nat, sh: Shared, th: Thread, c: Choice)
    requires Shaped(th) && ContextOk(th) && ThreadNext(signals, t, sh, th, c).Some?
    requires OpenSupplied(sh, th) && forall p :: p in sh.rollbacks ==> p in sh.supplied
    ensures var r := ThreadNext(signals, t, sh, th, c).value;
            && OpenSupplied(r.shared, r.thread)
            && sh.supplied <= r.shared.supplied
            && (forall p :: p in r.shared.rollbacks ==> p in r.shared.supplied)
            && (r.shared.rollbacks == sh.rollbacks
                 || r.shared.rollbacks == sh.rollbacks + [PairOf(th.stack[0].context)])
  {
    hide MainNext, HandlerNext;
    var top := |th.stack| - 1;
    var me := Holder(t, top);
    if !c.Install? && !c.Deliver? {
      if top == 0 {
        MainHistory(signals, me, sh, th.local, th.stack[0], c);
      } else {
        HandlerHistory(me, sh, th.local, th.stack[top], c);
        var f := th.stack[top];
        if f.pc.Rollback? {
          assert InLock(f) && !ColdHandler(f);
          assert Complete(f.read) && FromContext(f.read, th.stack[0]);
        }
      }
    }
  }

  lemma MainHistory(signals: seq<Signal>, me: Holder, sh: Shared, local: Context, f: Frame, c: Choice)
    requires f.Main? && MainNext(signals, me, sh, local, f, c).Some?
    ensures var r := MainNext(signals, me, sh, local, f, c).value;
            && r.shared.rollbacks == sh.rollbacks && sh.supplied <= r.shared.supplied && r.frame.Main?
            && (r.frame.at.Idle? || (r.frame.context == f.context && !f.at.Idle?)
                 || PairOf(r.frame.context) in r.shared.supplied)
  {
  }

  lemma HandlerHistory(me: Holder, sh: Shared, local: Context, f: Frame, c: Choice)
    requires f.Handler? && HandlerNext(me, sh, local, f, c).Some?
    ensures var r := HandlerNext(me, sh, local, f, c).value;
            && r.shared.supplied == sh.supplied
            && (r.Stay? ==> r.frame.Handler?)
            && (r.shared.rollbacks == sh.rollbacks
                 || (f.pc.Rollback? && r.shared.rollbacks == sh.rollbacks + [PairOf(f.read)]))
  {
  }

  /** A step changes one thread; the lock moves only through that thread's newest frame. */
  lemma StepKeepsLock(signals: seq<Signal>, s: State, t: nat, c: Choice, s': State)
    requires Inv(signals, s) && Step(signals, s, t, c, s')
    ensures forall u :: 0 <= u < |s'.threads| ==> Shaped(s'.threads[u]) && StackOk(s'.threads[u])
    ensures LockOk(s')
  {
    StepLock(signals, t, s.shared, s.threads[t], c);
    forall u, i | 0 <= u < |s'.threads| && 0 <= i < |s'.threads[u].stack|
      ensures InLock(s'.threads[u].stack[i]) <==> s'.shared.lock == Some(Holder(u, i))
    {
      if u != t {
        assert s'.threads[u] == s.threads[u];
      }
    }
  }

  lemma StepInv(signals: seq<Signal>, s: State, t: nat, c: Choice, s': State)
    requires Distinct(signals) && Inv(signals, s) && Step(signals, s, t, c, s')
    ensures Inv(signals, s')
    ensures (s.shared.cutContext ==> s'.shared.cutContext) && (s.shared.cutRegistration ==> s'.shared.cutRegistration)
  {
    hide ContextOk, HandlersOk, HistoryOk, StackOk, ThreadNext, ThreadOk;
    StepKeepsLock(signals, s, t, c, s');
    CutsStay(signals, t, s.shared, s.threads[t], c);
    forall u | 0 <= u < |s'.threads| ensures ThreadOk(signals, s'.threads[u]) {
      assert u != t ==> s'.threads[u] == s.threads[u];
    }
    if !s'.shared.cutContext {
      StepKeepsContexts(signals, s, t, c, s');
    }
    if !s'.shared.cutRegistration {
      StepKeepsHandlers(signals, s, t, c, s');
    }
  }

  lemma CutsStay(signals: seq<Signal>, t: nat, sh: Shared, th: Thread, c: Choice)
    requires Shaped(th) && ThreadNext(signals, t, sh, th, c).Some? && ThreadOk(signals, th)
    ensures var r := ThreadNext(signals, t, sh, th, c).value;
            && (sh.cutContext ==> r.shared.cutContext) && (sh.cutRegistration ==> r.shared.cutRegistration)
            && (Shaped(r.thread) ==> ThreadOk(signals, r.thread))
  {
    hide MainNext, HandlerNext;
    var top := |th.stack| - 1;
    var me := Holder(t, top);
    if !c.Install? && !c.Deliver? {
      if top == 0 {
        MainCuts(signals, me, sh, th.local, th.stack[0], c);
      } else {
        HandlerCuts(me, sh, th.local, th.stack[top], c);
      }
    }
  }

  lemma MainCuts(signals: seq<Signal>, me: Holder, sh: Shared, local: Context, f: Frame, c: Choice)
    requires f.Main? && MainNext(signals, me, sh, local, f, c).Some?
    ensures var r := MainNext(signals, me, sh, local, f, c).value;
            && (sh.cutContext ==> r.shared.cutContext) && (sh.cutRegistration ==> r.shared.cutRegistration)
            && r.frame.Main? && (r.frame.at.RegisterSave? ==> r.frame.at.k < |signals|)
  {
  }

  lemma HandlerCuts(me: Holder, sh: Shared, local: Context, f: Frame, c: Choice)
    requires f.Handler? && HandlerNext(me, sh, local, f, c).Some?
    requires HasCleared(f.pc) ==> local.uuid == ""
    ensures var r := HandlerNext(me, sh, local, f, c).value;
            && r.shared.cutContext == sh.cutContext && r.shared.cutRegistration == sh.cutRegistration
            && (r.Stay? ==>
                  && r.frame.Handler? && (r.local.uuid == local.uuid || r.local.uuid == "")
                  && (HasCleared(r.frame.pc) ==> r.local.uuid == ""))
  {
  }

  lemma StepKeepsHandlers(signals: seq<Signal>, s: State, t: nat, c: Choice, s': State)
    requires Distinct(signals) && Inv(signals, s) && Step(signals, s, t, c, s')
    requires !s.shared.cutRegistration && !s'.shared.cutRegistration && LockOk(s')
    ensures HandlersOk(signals, s'.shared, HolderFrame(s'))
  {
    hide ThreadNext, ContextOk, HandlersOk, HistoryOk, StackOk, ThreadOk;
    ThreadHandlers(signals, s, t, c);
    assert HolderFrame(s') == HolderAfter(s, t, ThreadNext(signals, t, s.shared, s.threads[t], c).value);
  }

  lemma StepKeepsContexts(signals: seq<Signal>, s: State, t: nat, c: Choice, s': State)
    requires Inv(signals, s) && Step(signals, s, t, c, s') && !s.shared.cutContext && !s'.shared.cutContext
    ensures forall u :: 0 <= u < |s'.threads| ==> Shaped(s'.threads[u]) && ContextOk(s'.threads[u])
    ensures HistoryOk(s'.shared, s'.threads)
  {
    hide ThreadNext, ContextOk, HandlersOk, OpenSupplied, StackOk, ThreadOk;
    StepContext(signals, t, s.shared, s.threads[t], c);
    ThreadHistory(signals, t, s.shared, s.threads[t], c);
    forall u | 0 <= u < |s'.threads|
      ensures Shaped(s'.threads[u]) && ContextOk(s'.threads[u]) && OpenSupplied(s'.shared, s'.threads[u])
    {
      if u != t {
        assert s'.threads[u] == s.threads[u];
        MoreSupplied(s.shared, s'.shared, s.threads[u]);
      }
    }
  }

  lemma MoreSupplied(sh: Shared, sh': Shared, th: Thread)
    requires OpenSupplied(sh, th) && sh.supplied <= sh'.supplied
    ensures OpenSupplied(sh', th)
  {
  }

  // ---- Runs

  ghost predicate SomeStep(signals: seq<Signal>, s: State, s': State)
  {
    exists t, c :: Step(signals, s, t, c, s')
  }

  /** Any interleaving from a fresh process: thread choices and outside decisions are arbitrary. */
  ghost predicate Run(signals: seq<Signal>, run: seq<State>)
  {
    && run != [] && Initial(run[0])
    && forall i :: 0 < i < |run| ==> SomeStep(signals, run[i - 1], run[i])
  }

  lemma {:induction false} RunInv(signals: seq<Signal>, run: seq<State>, i: nat)
    requires Distinct(signals) && Run(signals, run) && i < |run|
    ensures Inv(signals, run[i])
  {
    hide Inv, Step, Initial;
    if i == 0 {
      InitialInv(signals, run[0]);
    } else {
      RunInv(signals, run, i - 1);
      assert SomeStep(signals, run[i - 1], run[i]);
      var t, c :| Step(signals, run[i - 1], t, c, run[i]);
      StepInv(signals, run[i - 1], t, c, run[i]);
    }
  }

  predicate Inside(s: State, t: nat, depth: nat)
  {
    t < |s.threads| && depth < |s.threads[t].stack| && InLock(s.threads[t].stack[depth])
  }

  /** At every moment at most one frame, of any thread, is inside the rollback section or
      registration, and the lock is free exactly when none is. */
  lemma AtMostOneInside(signals: seq<Signal>, run: seq<State>, i: nat)
    requires Distinct(signals) && Run(signals, run) && i < |run|
    ensures var s := run[i];
            && (forall t, a, u, b | Inside(s, t, a) && Inside(s, u, b) :: t == u && a == b)
            && (s.shared.lock.None? <==> forall t, a :: !Inside(s, t, a))
  {
    hide Run;
    RunInv(signals, run, i);
    var s := run[i];
    if s.shared.lock.Some? {
      var h := s.shared.lock.value;
      assert Inside(s, h.thread, h.depth);
    }
  }

  /** As long as no foreign exception has cut through a context and left its type behind, every
      rollback ran with a pair that one `signal_context` call supplied. */
  lemma OnlySuppliedPairs(signals: seq<Signal>, run: seq<State>, i: nat)
    requires Distinct(signals) && Run(signals, run) && i < |run| && !run[i].shared.cutContext
    ensures forall p :: p in run[i].shared.rollbacks ==> p in run[i].shared.supplied
  {
    hide Run;
    RunInv(signals, run, i);
  }

  /** As long as none has cut through a registration that had begun to install handlers, no saved
      original handler is the handler itself. */
  lemma OriginalsAreForeign(signals: seq<Signal>, run: seq<State>, i: nat)
    requires Distinct(signals) && Run(signals, run) && i < |run| && !run[i].shared.cutRegistration
    ensures forall g :: g in run[i].shared.originals ==> !run[i].shared.originals[g].Krkn?
  {
    hide Run;
    RunInv(signals, run, i);
  }

  /** A frame about to roll back holds the very pair of the context its own thread has open; so
      no rollback by a signal overlaps what the driver does once the context is closed. */
  lemma RollbackWithinContext(signals: seq<Signal>, run: seq<State>, i: nat, t: nat, d: nat)
    requires Distinct(signals) && Run(signals, run) && i < |run| && !run[i].shared.cutContext
    requires t < |run[i].threads| && d < |run[i].threads[t].stack|
    requires run[i].threads[t].stack[d].Handler? && run[i].threads[t].stack[d].pc.Rollback?
    ensures var m, f := run[i].threads[t].stack[0], run[i].threads[t].stack[d];
            && m.Main? && PairOf(f.read) == PairOf(m.context)
            && (m.at.SetTelemetry? || m.at.RegisterLock? || m.at.Body? || m.at.ClearUuid?)
  {
    hide Run;
    RunInv(signals, run, i);
    var th := run[i].threads[t];
    assert d > 0 && !ColdHandler(th.stack[d]);
    assert HandlerOk(th.stack[d], th.local) && FromContext(th.stack[d].read, th.stack[0]);
    assert !InLock(th.stack[0]);
  }

  /** The ordinary step of a thread's newest frame. */
  ghost predicate CanGo(signals: seq<Signal>, s: State, t: nat)
  {
    exists s' :: Step(signals, s, t, Go, s')
  }

  /** A handler never waits: whatever else is going on, the newest frame can take its step. */
  lemma HandlerNeverBlocks(signals: seq<Signal>, run: seq<State>, i: nat, t: nat)
    requires Distinct(signals) && Run(signals, run) && i < |run| && run[i].shared.alive
    requires t < |run[i].threads| && |run[i].threads[t].stack| > 1
    ensures CanGo(signals, run[i], t)
  {
    hide Run;
    RunInv(signals, run, i);
    assert run[i].threads[t].stack[|run[i].threads[t].stack| - 1].Handler?;
    NotWaitingGoes(signals, run[i], t);
  }

  /** The thread is about to take the lock for its registration. */
  predicate AwaitsLock(th: Thread)
  {
    |th.stack| == 1 && th.stack[0].Main? && th.stack[0].at.RegisterLock?
  }

  /** How many steps of its own a handler frame can still take, chaining to itself included. */
  function HandlerRank(f: Frame, local: Context): nat
    requires f.Handler?
  {
    match f.pc
    case GetUuid => if local.uuid == "" then 4 else 15
    case GetType => if f.read.uuid == "" then 3 else 14
    case GetTelemetry => if f.read.uuid == "" then 2 else 13
    case Check => if f.read.uuid == "" then 1 else 12
    case TryLock => 11
    case Rollback => 10
    case ResetUuid => 9
    case ResetType => 8
    case ResetTelemetry => 7
    case Unlock => 6
    case Chain => 5
  }

  /** A handler activation ends after fifteen steps of its own at most, whatever happens in between and
      even if krkn's handler was saved as its own original: each such step takes it off the stack or
      lowers its rank, and no other step of any thread raises it. */
  lemma HandlerActivationEnds(signals: seq<Signal>, run: seq<State>, i: nat, t: nat, c: Choice, s': State, u: nat,
                              d: nat)
    requires Distinct(signals) && Run(signals, run) && i < |run| && Step(signals, run[i], t, c, s')
    requires u < |run[i].threads| && 0 < d < |run[i].threads[u].stack|
    ensures var th, th' := run[i].threads[u], s'.threads[u];
            && th.stack[d].Handler? && HandlerRank(th.stack[d], th.local) <= 15
            && (|th'.stack| <= d ||
                (th'.stack[d].Handler? && HandlerRank(th'.stack[d], th'.local) <= HandlerRank(th.stack[d], th.local)))
            && (u == t && d == |th.stack| - 1 && (c.Go? || c.Fail? || c.Raise?) ==>
                  |th'.stack| <= d || HandlerRank(th'.stack[d], th'.local) < HandlerRank(th.stack[d], th.local))
  {
    hide Run, HandlersOk, HistoryOk, LockOk, ContextOk, StackOk, MainNext, HandlerNext;
    RunInv(signals, run, i);
    var s := run[i];
    assert ThreadOk(signals, s.threads[u]) && Shaped(s.threads[u]);
    if u == t {
      var th := s.threads[t];
      if !c.Install? && !c.Deliver? {
        OwnStepRanks(signals, t, s.shared, th, c);
      }
    }
  }

  lemma OwnStepRanks(signals: seq<Signal>, t: nat, sh: Shared, th: Thread, c: Choice)
    requires Shaped(th) && ClearedOk(th) && |th.stack| > 1 && !c.Install? && !c.Deliver?
    requires ThreadNext(signals, t, sh, th, c).Some?
    ensures var th' := ThreadNext(signals, t, sh, th, c).value.thread;
            && Shaped(th')
            && (forall d :: 0 < d < |th'.stack| && d < |th.stack| ==>
                  HandlerRank(th'.stack[d], th'.local) <= HandlerRank(th.stack[d], th.local))
            && (|th'.stack| < |th.stack| || (|th'.stack| == |th.stack| &&
                  HandlerRank(th'.stack[|th.stack| - 1], th'.local) < HandlerRank(th.stack[|th.stack| - 1], th.local)))
  {
    var top := |th.stack| - 1;
    HandlerRankFalls(Holder(t, top), sh, th.local, th.stack[top], c);
    hide HandlerNext, HandlerRank;
    if HandlerNext(Holder(t, top), sh, th.local, th.stack[top], c).value.Stay? {
      var local' := HandlerNext(Holder(t, top), sh, th.local, th.stack[top], c).value.local;
      forall d | 0 < d < |th.stack| ensures HandlerRank(th.stack[d], local') <= HandlerRank(th.stack[d], th.local) {
        ClearingRanks(th.stack[d], th.local, local');
      }
    }
  }

  lemma ClearingRanks(f: Frame, local: Context, local': Context)
    requires f.Handler? && (local'.uuid == local.uuid || local'.uuid == "")
    ensures HandlerRank(f, local') <= HandlerRank(f, local)
  {
  }

  lemma HandlerRankFalls(me: Holder, sh: Shared, local: Context, f: Frame, c: Choice)
    requires f.Handler? && HandlerNext(me, sh, local, f, c).Some?
    requires HasCleared(f.pc) ==> local.uuid == ""
    ensures var r := HandlerNext(me, sh, local, f, c).value;
            r.Stay? ==>
              && r.frame.Handler? && (r.local.uuid == local.uuid || r.local.uuid == "")
              && HandlerRank(r.frame, r.local) < HandlerRank(f, local)
  {
  }

  /** No deadlock: in every reachable state of a living process each thread can take its step,
      except that a registration may wait for the lock; then another thread holds it and can go on. */
  lemma NoDeadlock(signals: seq<Signal>, run: seq<State>, i: nat, t: nat)
    requires Distinct(signals) && Run(signals, run) && i < |run| && run[i].shared.alive && t < |run[i].threads|
    ensures CanGo(signals, run[i], t) ||
            var s := run[i];
            && AwaitsLock(s.threads[t])
            && s.shared.lock.Some? && s.shared.lock.value.thread != t
            && s.shared.lock.value.thread < |s.threads| && CanGo(signals, s, s.shared.lock.value.thread)
  {
    hide Run;
    RunInv(signals, run, i);
    var s := run[i];
    if AwaitsLock(s.threads[t]) && s.shared.lock.Some? {
      var h := s.shared.lock.value;
      assert InLock(s.threads[h.thread].stack[h.depth]);
      assert h.thread != t;
      NotWaitingGoes(signals, s, h.thread);
    } else {
      NotWaitingGoes(signals, s, t);
    }
  }

  lemma NotWaitingGoes(signals: seq<Signal>, s: State, t: nat)
    requires Inv(signals, s) && s.shared.alive && t < |s.threads|
    requires AwaitsLock(s.threads[t]) ==> s.shared.lock.None?
    ensures CanGo(signals, s, t)
  {
    var r := ThreadNext(signals, t, s.shared, s.threads[t], Go);
    assert SaveOk(signals, s.threads[t]);
    assert r.Some?;
    assert Step(signals, s, t, Go, State(r.value.shared, s.threads[t := r.value.thread]));
  }

  // ---- When an exception does cut through

  /** A run fragment of one thread. */
  ghost function Drive(signals: seq<Signal>, s: State, t: nat, choices: seq<Choice>): Option<State>
    decreases |choices|
  {
    if choices == [] then Some(s)
    else if t >= |s.threads| || !Shaped(s.threads[t]) then None
    else
      var r := ThreadNext(signals, t, s.shared, s.threads[t], choices[0]);
      if r.None? then None
      else Drive(signals, State(r.value.shared, s.threads[t := r.value.thread]), t, choices[1..])
  }

  function Gos(n: nat): seq<Choice> { if n == 0 then [] else [Go] + Gos(n - 1) }

  lemma DriveOne(signals: seq<Signal>, s: State, t: nat, c: Choice, rest: seq<Choice>, s': State)
    requires Step(signals, s, t, c, s')
    ensures Drive(signals, s, t, [c] + rest) == Drive(signals, s', t, rest)
  {
    assert ([c] + rest)[1..] == rest;
  }

  /** Thread `t` of `s` replaced. */
  function With(s: State, t: nat, sh: Shared, th: Thread): State
    requires t < |s.threads|
  {
    State(sh, s.threads[t := th])
  }

  lemma HandlerStep(signals: seq<Signal>, s: State, t: nat, sh: Shared, l: Context, m: Frame, f: Frame, c: Choice,
                    sh': Shared, l': Context, f': Frame)
    requires t < |s.threads| && m.Main? && f.Handler? && f'.Handler? && sh.alive && (c.Go? || c.Fail?)
    requires HandlerNext(Holder(t, 1), sh, l, f, c) == Some(Stay(sh', l', f'))
    ensures Step(signals, With(s, t, sh, Thread(l, [m, f])), t, c, With(s, t, sh', Thread(l', [m, f'])))
  {
    assert [m, f][1 := f'] == [m, f'];
  }

  lemma MainStep(signals: seq<Signal>, s: State, t: nat, sh: Shared, l: Context, m: Frame, c: Choice,
                 sh': Shared, l': Context, m': Frame)
    requires t < |s.threads| && m.Main? && sh.alive && !c.Install? && !c.Deliver?
    requires MainNext(signals, Holder(t, 0), sh, l, m, c) == Some(MainResult(sh', l', m'))
    ensures Step(signals, With(s, t, sh, Thread(l, [m])), t, c, With(s, t, sh', Thread(l', [m'])))
  {
  }

  lemma DeliverStep(signals: seq<Signal>, s: State, t: nat, sh: Shared, l: Context, m: Frame, g: Signal)
    requires t < |s.threads| && m.Main? && sh.alive && g in sh.table && sh.table[g].Krkn?
    ensures Step(signals, With(s, t, sh, Thread(l, [m])), t, Deliver(g),
                 With(s, t, sh, Thread(l, [m, Handler(g, NO_CONTEXT, GetUuid, false)])))
  {
    assert [m] + [Handler(g, NO_CONTEXT, GetUuid, false)] == [m, Handler(g, NO_CONTEXT, GetUuid, false)];
  }

  lemma RollbackSteps(me: Holder, sh: Shared, l: Context, g: Signal)
    requires Complete(l) && sh.lock.None?
    ensures var f0 := Handler(g, NO_CONTEXT, GetUuid, false);
            var f1 := f0.(read := NO_CONTEXT.(uuid := l.uuid), pc := GetType);
            var f2 := f1.(read := Context(l.uuid, l.scenarioType, 0), pc := GetTelemetry);
            var f3 := f2.(read := l, pc := Check);
            var f4, f5, f6 := f3.(pc := TryLock), f3.(pc := Rollback), f3.(pc := ResetUuid);
            var sh5 := sh.(lock := Some(me));
            && HandlerNext(me, sh, l, f0, Go) == Some(Stay(sh, l, f1))
            && HandlerNext(me, sh, l, f1, Go) == Some(Stay(sh, l, f2))
            && HandlerNext(me, sh, l, f2, Go) == Some(Stay(sh, l, f3))
            && HandlerNext(me, sh, l, f3, Go) == Some(Stay(sh, l, f4))
            && HandlerNext(me, sh, l, f4, Go) == Some(Stay(sh5, l, f5))
            && HandlerNext(me, sh5, l, f5, Go) ==
               Some(Stay(sh5.(rollbacks := sh.rollbacks + [PairOf(l)]), l, f6))
  {
  }

  lemma {:induction false} HandlerSteps(signals: seq<Signal>, s: State, t: nat, m: Frame,
                                        frames: seq<Frame>, shares: seq<Shared>, locals: seq<Context>)
    requires t < |s.threads| && m.Main? && |frames| == |shares| == |locals| > 0
    requires forall i :: 0 <= i < |frames| ==> frames[i].Handler? && shares[i].alive
    requires forall i :: 0 < i < |frames| ==>
               HandlerNext(Holder(t, 1), shares[i - 1], locals[i - 1], frames[i - 1], Go)
               == Some(Stay(shares[i], locals[i], frames[i]))
    ensures var n := |frames| - 1;
            Drive(signals, With(s, t, shares[0], Thread(locals[0], [m, frames[0]])), t, Gos(n))
            == Some(With(s, t, shares[n], Thread(locals[n], [m, frames[n]])))
    decreases |frames|
  {
    hide HandlerNext, ThreadNext, Step, Drive;
    var s0 := With(s, t, shares[0], Thread(locals[0], [m, frames[0]]));
    if |frames| > 1 {
      assert HandlerNext(Holder(t, 1), shares[0], locals[0], frames[0], Go)
          == Some(Stay(shares[1], locals[1], frames[1]));
      HandlerStep(signals, s, t, shares[0], locals[0], m, frames[0], Go, shares[1], locals[1], frames[1]);
      DriveOne(signals, s0, t, Go, Gos(|frames| - 2), With(s, t, shares[1], Thread(locals[1], [m, frames[1]])));
      HandlerSteps(signals, s, t, m, frames[1..], shares[1..], locals[1..]);
    } else {
      DriveNothing(signals, s0, t);
    }
  }

  /** A handler that finds a complete context and the lock free takes it. */
  lemma HandlerReaches(signals: seq<Signal>, s: State, t: nat, sh: Shared, l: Context, m: Frame, g: Signal)
    requires t < |s.threads| && m.Main? && Complete(l)
    requires sh.alive && sh.lock.None? && g in sh.table && sh.table[g].Krkn?
    ensures Drive(signals, With(s, t, sh, Thread(l, [m])), t, [Deliver(g)] + Gos(5)) ==
            Some(With(s, t, sh.(lock := Some(Holder(t, 1))), Thread(l, [m, Handler(g, l, Rollback, false)])))
  {
    var f0 := Handler(g, NO_CONTEXT, GetUuid, false);
    var f1 := f0.(read := NO_CONTEXT.(uuid := l.uuid), pc := GetType);
    var f2 := f1.(read := Context(l.uuid, l.scenarioType, 0), pc := GetTelemetry);
    var f3 := f2.(read := l, pc := Check);
    var f4, f5 := f3.(pc := TryLock), f3.(pc := Rollback);
    var sh5 := sh.(lock := Some(Holder(t, 1)));
    RollbackSteps(Holder(t, 1), sh, l, g);
    hide ThreadNext, Drive, Step, HandlerNext, Gos;
    DeliverStep(signals, s, t, sh, l, m, g);
    HandlerSteps(signals, s, t, m, [f0, f1, f2, f3, f4, f5], [sh, sh, sh, sh, sh, sh5], [l, l, l, l, l, l]);
    DriveOne(signals, With(s, t, sh, Thread(l, [m])), t, Deliver(g), Gos(5), With(s, t, sh, Thread(l, [m, f0])));
  }

  /** And rolls the context back, whatever it is. */
  lemma HandlerRollsBack(signals: seq<Signal>, s: State, t: nat, sh: Shared, l: Context, m: Frame, g: Signal)
    requires t < |s.threads| && m.Main? && Complete(l)
    requires sh.alive && sh.lock.None? && g in sh.table && sh.table[g].Krkn?
    ensures var end := Drive(signals, With(s, t, sh, Thread(l, [m])), t, [Deliver(g)] + Gos(6));
            end.Some? && end.value.shared.rollbacks == sh.rollbacks + [PairOf(l)]
              && end.value.shared.supplied == sh.supplied
  {
    var f5, f6 := Handler(g, l, Rollback, false), Handler(g, l, ResetUuid, false);
    var sh5 := sh.(lock := Some(Holder(t, 1)));
    var sh6 := sh5.(rollbacks := sh.rollbacks + [PairOf(l)]);
    assert HandlerNext(Holder(t, 1), sh5, l, f5, Go) == Some(Stay(sh6, l, f6));
    hide ThreadNext, Drive, Step, HandlerNext, Gos;
    HandlerReaches(signals, s, t, sh, l, m, g);
    HandlerStep(signals, s, t, sh5, l, m, f5, Go, sh6, l, f6);
    DriveStep(signals, With(s, t, sh5, Thread(l, [m, f5])), t, Go, With(s, t, sh6, Thread(l, [m, f6])));
    DriveJoin(signals, With(s, t, sh, Thread(l, [m])), t, [Deliver(g)] + Gos(5), [Go]);
    GosSnoc(5);
    assert [Deliver(g)] + Gos(6) == ([Deliver(g)] + Gos(5)) + [Go];
  }

  lemma {:induction false} GosSnoc(n: nat)
    ensures Gos(n + 1) == Gos(n) + [Go]
  {
    if n > 0 {
      GosSnoc(n - 1);
    }
  }

  /** One that finds a part of the context missing goes away. */
  lemma HandlerSkips(signals: seq<Signal>, s: State, t: nat, sh: Shared, l: Context, m: Frame, g: Signal)
    requires t < |s.threads| && m.Main? && !Complete(l)
    requires sh.alive && g in sh.table && sh.table[g].Krkn?
    ensures Drive(signals, With(s, t, sh, Thread(l, [m])), t, [Deliver(g)] + (Gos(3) + [Go])) ==
            Some(With(s, t, sh, Thread(l, [m])))
  {
    var f0 := Handler(g, NO_CONTEXT, GetUuid, false);
    var f1 := f0.(read := NO_CONTEXT.(uuid := l.uuid), pc := GetType);
    var f2 := f1.(read := Context(l.uuid, l.scenarioType, 0), pc := GetTelemetry);
    var f3 := f2.(read := l, pc := Check);
    var s0, s1, s4 := With(s, t, sh, Thread(l, [m])), With(s, t, sh, Thread(l, [m, f0])),
      With(s, t, sh, Thread(l, [m, f3]));
    DeliverStep(signals, s, t, sh, l, m, g);
    hide ThreadNext, Drive, Step;
    HandlerSteps(signals, s, t, m, [f0, f1, f2, f3], [sh, sh, sh, sh], [l, l, l, l]);
    HandlerReturn(signals, s, t, sh, l, m, f3);
    DriveOne(signals, s0, t, Deliver(g), Gos(3) + [Go], s1);
    DriveJoin(signals, s1, t, Gos(3), [Go]);
    DriveOne(signals, s4, t, Go, [], s0);
    assert [Go] + [] == [Go];
  }

  lemma HandlerReturn(signals: seq<Signal>, s: State, t: nat, sh: Shared, l: Context, m: Frame, f: Frame)
    requires t < |s.threads| && m.Main? && f.Handler? && sh.alive
    requires HandlerNext(Holder(t, 1), sh, l, f, Go) == Some(Return(sh))
    ensures Step(signals, With(s, t, sh, Thread(l, [m, f])), t, Go, With(s, t, sh, Thread(l, [m])))
  {
    assert [m, f][..1] == [m];
  }

  lemma {:induction false} DriveJoin(signals: seq<Signal>, s: State, t: nat, first: seq<Choice>, second: seq<Choice>)
    requires Drive(signals, s, t, first).Some?
    ensures Drive(signals, s, t, first + second) == Drive(signals, Drive(signals, s, t, first).value, t, second)
    decreases |first|
  {
    if first == [] {
      assert first + second == second;
    } else {
      assert (first + second)[1..] == first[1..] + second;
      var r := ThreadNext(signals, t, s.shared, s.threads[t], first[0]);
      DriveJoin(signals, State(r.value.shared, s.threads[t := r.value.thread]), t, first[1..], second);
    }
  }

  /** An exception cuts through the entry or exit code of a context, leaving `l` in the fields; the
      next context then writes its first field. */
  function CutThenEnter(next: Context): seq<Choice> { [Strike] + ([Enter(next)] + [Go]) }

  lemma AfterCut(signals: seq<Signal>, s: State, t: nat, l: Context, last: Context, at: MainPc, next: Context)
      returns (sh: Shared)
    requires t < |s.threads| && s.threads[t] == Thread(l, [Main(last, at)]) && !at.Idle? && !at.Body?
    requires s.shared.alive && (s.shared.lock.None? || InLock(Main(last, at)))
    ensures sh.alive && sh.lock.None? && sh.table == s.shared.table && sh.rollbacks == s.shared.rollbacks
    ensures sh.supplied == s.shared.supplied + {PairOf(next)}
    ensures sh.cutContext <==> s.shared.cutContext || (l.scenarioType != "" && l.telemetry != 0)
    ensures Drive(signals, s, t, CutThenEnter(next)) ==
            Some(With(s, t, sh, Thread(l.(uuid := next.uuid), [Main(next, SetType)])))
  {
    hide Drive, Step, ThreadNext;
    var f := Main(last, at);
    var sh1 := Struck(s.shared, l, f);
    sh := sh1.(supplied := sh1.supplied + {PairOf(next)});
    var mixed := l.(uuid := next.uuid);
    var s1, s2 := With(s, t, sh1, Thread(l, [Main(NO_CONTEXT, Idle)])),
      With(s, t, sh, Thread(l, [Main(next, SetUuid)]));
    var s3 := With(s, t, sh, Thread(mixed, [Main(next, SetType)]));
    MainStep(signals, s, t, s.shared, l, f, Strike, sh1, l, Main(NO_CONTEXT, Idle));
    MainStep(signals, s, t, sh1, l, Main(NO_CONTEXT, Idle), Enter(next), sh, l, Main(next, SetUuid));
    MainStep(signals, s, t, sh, l, Main(next, SetUuid), Go, sh, mixed, Main(next, SetType));
    assert s == With(s, t, s.shared, Thread(l, [f]));
    DriveOne(signals, s, t, Strike, [Enter(next)] + [Go], s1);
    DriveOne(signals, s1, t, Enter(next), [Go], s2);
    DriveOne(signals, s2, t, Go, [], s3);
    assert [Go] + [] == [Go];
    DriveNothing(signals, s3, t);
    assert Gos(0) == [];
  }

  /** The flag that conditions the guarantee on pairs is raised by exactly the cuts that leave a type and a
      telemetry object. */
  lemma CutIsRecorded(signals: seq<Signal>, s: State, t: nat, l: Context, last: Context, at: MainPc, next: Context)
    requires t < |s.threads| && s.threads[t] == Thread(l, [Main(last, at)]) && !at.Idle? && !at.Body?
    requires s.shared.alive && (s.shared.lock.None? || InLock(Main(last, at)))
    ensures var end := Drive(signals, s, t, CutThenEnter(next));
            && end.Some?
            && (end.value.shared.cutContext <==> s.shared.cutContext || (l.scenarioType != "" && l.telemetry != 0))
  {
    hide Drive;
    var sh := AfterCut(signals, s, t, l, last, at, next);
  }

  /** The guarantee needs its condition. Wherever the exception cuts, a signal right after the next
      context's first field write rolls back the new uuid with the type that was left behind exactly
      when a type and a telemetry object were (and the new uuid is not empty); otherwise it does
      nothing. */
  lemma CutMixesPairs(signals: seq<Signal>, s: State, t: nat, l: Context, last: Context, at: MainPc, next: Context,
                      g: Signal)
    requires t < |s.threads| && s.threads[t] == Thread(l, [Main(last, at)]) && !at.Idle? && !at.Body?
    requires s.shared.alive && (s.shared.lock.None? || InLock(Main(last, at)))
    requires g in s.shared.table && s.shared.table[g].Krkn?
    ensures Complete(l.(uuid := next.uuid)) ==>
              var end := Drive(signals, s, t, CutThenEnter(next) + ([Deliver(g)] + Gos(6)));
              && end.Some?
              && end.value.shared.rollbacks == s.shared.rollbacks + [Pair(next.uuid, l.scenarioType)]
              && end.value.shared.supplied == s.shared.supplied + {PairOf(next)}
    ensures !Complete(l.(uuid := next.uuid)) ==>
              var end := Drive(signals, s, t, CutThenEnter(next) + ([Deliver(g)] + (Gos(3) + [Go])));
              end.Some? && end.value.shared.rollbacks == s.shared.rollbacks
              && t < |end.value.threads| && |end.value.threads[t].stack| == 1
  {
    hide Drive, Gos;
    var sh := AfterCut(signals, s, t, l, last, at, next);
    var mixed, m := l.(uuid := next.uuid), Main(next, SetType);
    if Complete(mixed) {
      DriveJoin(signals, s, t, CutThenEnter(next), [Deliver(g)] + Gos(6));
      HandlerRollsBack(signals, s, t, sh, mixed, m, g);
    } else {
      DriveJoin(signals, s, t, CutThenEnter(next), [Deliver(g)] + (Gos(3) + [Go]));
      HandlerSkips(signals, s, t, sh, mixed, m, g);
    }
  }

  lemma DriveNothing(signals: seq<Signal>, s: State, t: nat)
    ensures Drive(signals, s, t, Gos(0)) == Some(s)
  {
  }

  // ---- Such cuts happen in runs of a fresh process

  ghost predicate Reachable(signals: seq<Signal>, s: State)
  {
    exists run :: Run(signals, run) && run[|run| - 1] == s
  }

  lemma {:induction false} DriveReaches(signals: seq<Signal>, s: State, t: nat, choices: seq<Choice>)
    requires Reachable(signals, s) && Drive(signals, s, t, choices).Some?
    ensures Reachable(signals, Drive(signals, s, t, choices).value)
    decreases |choices|
  {
    hide ThreadNext;
    if choices != [] {
      var r := ThreadNext(signals, t, s.shared, s.threads[t], choices[0]);
      var s' := State(r.value.shared, s.threads[t := r.value.thread]);
      assert Step(signals, s, t, choices[0], s');
      var run :| Run(signals, run) && run[|run| - 1] == s;
      assert SomeStep(signals, s, s');
      assert Run(signals, run + [s']);
      assert (run + [s'])[|run|] == s';
      DriveReaches(signals, s', t, choices[1..]);
    }
  }

  lemma InitialReachable(signals: seq<Signal>, s: State)
    requires Initial(s)
    ensures Reachable(signals, s)
  {
    assert Run(signals, [s]) && [s][|[s]| - 1] == s;
  }

  lemma {:induction false} GosJoin(a: nat, b: nat)
    ensures Gos(a + b) == Gos(a) + Gos(b)
  {
    if a > 0 {
      GosJoin(a - 1, b);
      assert Gos(a) + Gos(b) == [Go] + (Gos(a - 1) + Gos(b));
    } else {
      assert Gos(0) + Gos(b) == Gos(b);
    }
  }

  lemma {:induction false} MainSteps(signals: seq<Signal>, s: State, t: nat,
                                     shares: seq<Shared>, locals: seq<Context>, frames: seq<Frame>)
    requires t < |s.threads| && |frames| == |shares| == |locals| > 0
    requires forall i :: 0 <= i < |frames| ==> frames[i].Main? && shares[i].alive
    requires forall i :: 0 < i < |frames| ==>
               MainNext(signals, Holder(t, 0), shares[i - 1], locals[i - 1], frames[i - 1], Go)
               == Some(MainResult(shares[i], locals[i], frames[i]))
    ensures var n := |frames| - 1;
            Drive(signals, With(s, t, shares[0], Thread(locals[0], [frames[0]])), t, Gos(n))
            == Some(With(s, t, shares[n], Thread(locals[n], [frames[n]])))
    decreases |frames|
  {
    hide MainNext, ThreadNext, Step, Drive;
    if |frames| > 1 {
      MainStep(signals, s, t, shares[0], locals[0], frames[0], Go, shares[1], locals[1], frames[1]);
      DriveOne(signals, With(s, t, shares[0], Thread(locals[0], [frames[0]])), t, Go, Gos(|frames| - 2),
               With(s, t, shares[1], Thread(locals[1], [frames[1]])));
      MainSteps(signals, s, t, shares[1..], locals[1..], frames[1..]);
    } else {
      DriveNothing(signals, With(s, t, shares[0], Thread(locals[0], [frames[0]])), t);
    }
  }

  /** Opening a context where nobody holds the lock leads to the loop that installs handlers. */
  lemma Opening(signals: seq<Signal>, s: State, t: nat, sh: Shared, l: Context, c: Context)
    requires t < |s.threads| && sh.alive && sh.lock.None? && !sh.installed
    ensures var sh' := sh.(supplied := sh.supplied + {PairOf(c)}, lock := Some(Holder(t, 0)));
            Drive(signals, With(s, t, sh, Thread(l, [Main(NO_CONTEXT, Idle)])), t, [Enter(c)] + Gos(5))
            == Some(With(s, t, sh', Thread(c, [Main(c, RegisterInstall(0))])))
  {
    hide Drive, Step, ThreadNext;
    var sh1 := sh.(supplied := sh.supplied + {PairOf(c)});
    var sh2 := sh1.(lock := Some(Holder(t, 0)));
    MainStep(signals, s, t, sh, l, Main(NO_CONTEXT, Idle), Enter(c), sh1, l, Main(c, SetUuid));
    DriveOne(signals, With(s, t, sh, Thread(l, [Main(NO_CONTEXT, Idle)])), t, Enter(c), Gos(5),
             With(s, t, sh1, Thread(l, [Main(c, SetUuid)])));
    var l1 := l.(uuid := c.uuid);
    var l2 := l1.(scenarioType := c.scenarioType);
    MainSteps(signals, s, t, [sh1, sh1, sh1, sh1, sh2, sh2], [l, l1, l2, c, c, c],
              [Main(c, SetUuid), Main(c, SetType), Main(c, SetTelemetry), Main(c, RegisterLock),
               Main(c, RegisterCheck), Main(c, RegisterInstall(0))]);
  }

  /** What a registration has done to the shared state after its first `m` signals. */
  function Registered(signals: seq<Signal>, sh: Shared, m: nat): Shared
    requires m <= |signals|
  {
    if m == 0 then sh
    else
      var r := Registered(signals, sh, m - 1);
      var g := signals[m - 1];
      r.(table := r.table[g := Krkn], originals := r.originals[g := Prior(r.table, g)])
  }

  function Prior(table: map<Signal, Disposition>, g: Signal): Disposition
  {
    if g in table then table[g] else Default
  }

  lemma {:induction false} RegisteredEffect(signals: seq<Signal>, sh: Shared, m: nat)
    requires Distinct(signals) && m <= |signals|
    ensures var r := Registered(signals, sh, m);
            && r == sh.(table := r.table, originals := r.originals)
            && forall k :: 0 <= k < |signals| ==>
                 && Prior(r.table, signals[k]) == (if k < m then Krkn else Prior(sh.table, signals[k]))
                 && (k < m ==> signals[k] in r.originals && r.originals[signals[k]] == Prior(sh.table, signals[k]))
  {
    if m > 0 {
      RegisteredEffect(signals, sh, m - 1);
    }
  }

  lemma {:induction false} InstallSteps(signals: seq<Signal>, s: State, t: nat, sh: Shared, c: Context, m: nat)
    requires t < |s.threads| && sh.alive && m <= |signals|
    ensures Registered(signals, sh, m).alive
    ensures Drive(signals, With(s, t, sh, Thread(c, [Main(c, RegisterInstall(0))])), t, Gos(2 * m))
            == Some(With(s, t, Registered(signals, sh, m), Thread(c, [Main(c, RegisterInstall(m))])))
  {
    hide Drive, Step, ThreadNext;
    var start := With(s, t, sh, Thread(c, [Main(c, RegisterInstall(0))]));
    if m == 0 {
      DriveNothing(signals, start, t);
    } else {
      InstallSteps(signals, s, t, sh, c, m - 1);
      var r, g := Registered(signals, sh, m - 1), signals[m - 1];
      var half := r.(table := r.table[g := Krkn]);
      MainSteps(signals, s, t, [r, half, Registered(signals, sh, m)], [c, c, c],
                [Main(c, RegisterInstall(m - 1)), Main(c, RegisterSave(m - 1, Prior(r.table, g))),
                  Main(c, RegisterInstall(m))]);
      GosJoin(2 * (m - 1), 2);
      DriveJoin(signals, start, t, Gos(2 * (m - 1)), Gos(2));
    }
  }

  /** How many handlers the first `n` steps of the installing loop have put in the table. */
  function Installed(signals: seq<Signal>, n: nat): nat
  {
    if n > 2 * |signals| then |signals| else (n + 1) / 2
  }

  /** Registration stopped after `n` steps of its loop, wherever that is. */
  lemma PartWay(signals: seq<Signal>, s: State, t: nat, sh: Shared, c: Context, n: nat)
        returns (sh': Shared, at: MainPc)
    requires Distinct(signals) && t < |s.threads| && sh.alive && n <= 2 * |signals| + 1
    ensures Drive(signals, With(s, t, sh, Thread(c, [Main(c, RegisterInstall(0))])), t, Gos(n))
            == Some(With(s, t, sh', Thread(c, [Main(c, at)])))
    ensures !at.Idle? && !at.Body? && InLock(Main(c, at)) && (LeavesHandlers(at) <==> n > 0)
    ensures sh' == sh.(table := sh'.table, originals := sh'.originals)
    ensures forall k :: 0 <= k < |signals| ==>
              Prior(sh'.table, signals[k]) == if k < Installed(signals, n) then Krkn else Prior(sh.table, signals[k])
  {
    hide Drive, Step, ThreadNext, MainNext, Registered;
    var m := n / 2;
    var r := Registered(signals, sh, m);
    InstallSteps(signals, s, t, sh, c, m);
    RegisteredEffect(signals, sh, m);
    if n % 2 == 0 {
      sh', at := r, RegisterInstall(m);
    } else {
      sh', at := HalfStep(signals, Holder(t, 0), r, c, m);
      MainSteps(signals, s, t, [r, sh'], [c, c], [Main(c, RegisterInstall(m)), Main(c, at)]);
      GosJoin(2 * m, 1);
      DriveJoin(signals, With(s, t, sh, Thread(c, [Main(c, RegisterInstall(0))])), t, Gos(2 * m), Gos(1));
    }
  }

  /** A handler is in the table but not saved yet, or the loop is over. */
  lemma HalfStep(signals: seq<Signal>, me: Holder, r: Shared, c: Context, m: nat) returns (sh': Shared, at: MainPc)
    requires Distinct(signals) && m <= |signals|
    ensures MainNext(signals, me, r, c, Main(c, RegisterInstall(m)), Go) == Some(MainResult(sh', c, Main(c, at)))
    ensures !at.Idle? && !at.Body? && InLock(Main(c, at)) && LeavesHandlers(at)
    ensures sh' == r.(table := sh'.table)
    ensures forall k :: 0 <= k < |signals| ==>
            Prior(sh'.table, signals[k]) == if k == m then Krkn else Prior(r.table, signals[k])
  {
    if m < |signals| {
      sh', at := r.(table := r.table[signals[m] := Krkn]), RegisterSave(m, Prior(r.table, signals[m]));
    } else {
      sh', at := r, RegisterFlag;
    }
  }

  /** Two contexts are opened one after the other in a fresh process; an exception cuts the first
      after `n` steps of its installing loop. */
  function CutRegistration(last: Context, next: Context, n: nat, all: nat): seq<Choice>
  {
    (([Enter(last)] + Gos(5)) + Gos(n)) + ([Strike] + (([Enter(next)] + Gos(5)) + Gos(2 * all)))
  }

  /** The guarantee on originals needs its condition too. Wherever the first registration is cut, the
      next one saves krkn's own handler as the original of exactly the signals that the cut one had
      put in the table. */
  lemma CutRegistrationChainsToItself(signals: seq<Signal>, s: State, t: nat, last: Context, next: Context, n: nat)
    requires Distinct(signals) && Initial(s) && s.shared.alive && t < |s.threads| && n <= 2 * |signals| + 1
    ensures var end := Drive(signals, s, t, CutRegistration(last, next, n, |signals|));
            && end.Some? && Reachable(signals, end.value)
            && (end.value.shared.cutRegistration <==> n > 0)
            && forall k :: 0 <= k < |signals| ==>
                 && signals[k] in end.value.shared.originals
                 && (end.value.shared.originals[signals[k]].Krkn? <==> k < Installed(signals, n))
  {
    hide Drive, Step, ThreadNext, Gos;
    var path := CutRegistration(last, next, n, |signals|);
    var l, sh := NO_CONTEXT, s.shared;
    assert s == With(s, t, sh, Thread(l, [Main(NO_CONTEXT, Idle)]));
    Opening(signals, s, t, sh, l, last);
    var sh1 := sh.(supplied := sh.supplied + {PairOf(last)}, lock := Some(Holder(t, 0)));
    var sh2, at := PartWay(signals, s, t, sh1, last, n);
    DriveJoin(signals, s, t, [Enter(last)] + Gos(5), Gos(n));
    var sh3 := Struck(sh2, last, Main(last, at));
    MainStep(signals, s, t, sh2, last, Main(last, at), Strike, sh3, last, Main(NO_CONTEXT, Idle));
    var s2, s3 := With(s, t, sh2, Thread(last, [Main(last, at)])),
      With(s, t, sh3, Thread(last, [Main(NO_CONTEXT, Idle)]));
    Opening(signals, s, t, sh3, last, next);
    var sh4 := sh3.(supplied := sh3.supplied + {PairOf(next)}, lock := Some(Holder(t, 0)));
    InstallSteps(signals, s, t, sh4, next, |signals|);
    RegisteredEffect(signals, sh4, |signals|);
    DriveJoin(signals, s3, t, [Enter(next)] + Gos(5), Gos(2 * |signals|));
    DriveOne(signals, s2, t, Strike, ([Enter(next)] + Gos(5)) + Gos(2 * |signals|), s3);
    DriveJoin(signals, s, t, ([Enter(last)] + Gos(5)) + Gos(n),
              [Strike] + (([Enter(next)] + Gos(5)) + Gos(2 * |signals|)));
    InitialReachable(signals, s);
    DriveReaches(signals, s, t, path);
  }

  /** A context is opened, and closed as far as clearing its uuid. */
  function CloseHalfway(last: Context, all: nat): seq<Choice> { (([Enter(last)] + Gos(5)) + Gos(2 * all)) + Gos(5) }

  lemma HalfClosed(signals: seq<Signal>, s: State, t: nat, last: Context) returns (sh: Shared)
    requires Distinct(signals) && Initial(s) && s.shared.alive && t < |s.threads|
    ensures Drive(signals, s, t, CloseHalfway(last, |signals|))
            == Some(With(s, t, sh, Thread(last.(uuid := ""), [Main(last, ClearType)])))
    ensures sh.alive && sh.lock.None? && sh.rollbacks == [] && sh.supplied == {PairOf(last)} && !sh.cutContext
    ensures forall g :: g in signals ==> g in sh.table && sh.table[g].Krkn?
  {
    hide Drive, Step, ThreadNext, Gos;
    assert s == With(s, t, s.shared, Thread(NO_CONTEXT, [Main(NO_CONTEXT, Idle)]));
    Opening(signals, s, t, s.shared, NO_CONTEXT, last);
    var sh1 := s.shared.(supplied := {PairOf(last)}, lock := Some(Holder(t, 0)));
    assert s.shared.supplied + {PairOf(last)} == {PairOf(last)};
    InstallSteps(signals, s, t, sh1, last, |signals|);
    RegisteredEffect(signals, sh1, |signals|);
    DriveJoin(signals, s, t, [Enter(last)] + Gos(5), Gos(2 * |signals|));
    var r := Registered(signals, sh1, |signals|);
    sh := r.(installed := true, lock := None);
    HalfClosing(signals, s, t, r, last);
    DriveJoin(signals, s, t, ([Enter(last)] + Gos(5)) + Gos(2 * |signals|), Gos(5));
    forall g | g in signals ensures g in sh.table && sh.table[g].Krkn? {
      var k :| 0 <= k < |signals| && signals[k] == g;
      assert Prior(r.table, signals[k]) == Krkn;
    }
  }

  lemma HalfClosing(signals: seq<Signal>, s: State, t: nat, r: Shared, c: Context)
    requires t < |s.threads| && r.alive
    ensures Drive(signals, With(s, t, r, Thread(c, [Main(c, RegisterInstall(|signals|))])), t, Gos(5))
            == Some(With(s, t, r.(installed := true, lock := None), Thread(c.(uuid := ""), [Main(c, ClearType)])))
  {
    hide Drive, Step, ThreadNext, Gos;
    var on, free := r.(installed := true), r.(installed := true, lock := None);
    MainSteps(signals, s, t, [r, r, on, free, free, free], [c, c, c, c, c, c.(uuid := "")],
              [Main(c, RegisterInstall(|signals|)), Main(c, RegisterFlag), Main(c, RegisterUnlock),
               Main(c, Body), Main(c, ClearUuid), Main(c, ClearType)]);
  }

  /** So the guarantee on pairs fails in runs of a fresh process: an exception cuts the exit of one
      context, and a signal during the entry of the next rolls back a pair that nobody supplied,
      unless the two contexts agree on the run or on the type. */
  lemma CutExitRollsBackUnsupplied(signals: seq<Signal>, s: State, t: nat, last: Context, next: Context, g: Signal)
    requires Distinct(signals) && Initial(s) && s.shared.alive && t < |s.threads| && g in signals
    requires last.scenarioType != "" && last.telemetry != 0 && next.uuid != ""
    ensures var end := Drive(signals, s, t,
                             CloseHalfway(last, |signals|) + (CutThenEnter(next) + ([Deliver(g)] + Gos(6))));
            && end.Some? && Reachable(signals, end.value)
            && end.value.shared.rollbacks == [Pair(next.uuid, last.scenarioType)]
            && (Pair(next.uuid, last.scenarioType) in end.value.shared.supplied <==>
                next.uuid == last.uuid || next.scenarioType == last.scenarioType)
  {
    hide Drive, Step, ThreadNext, Gos, CloseHalfway, CutThenEnter;
    var sh := HalfClosed(signals, s, t, last);
    var l := last.(uuid := "");
    var s1 := With(s, t, sh, Thread(l, [Main(last, ClearType)]));
    CutMixesPairs(signals, s1, t, l, last, ClearType, next, g);
    DriveJoin(signals, s, t, CloseHalfway(last, |signals|), CutThenEnter(next) + ([Deliver(g)] + Gos(6)));
    InitialReachable(signals, s);
    DriveReaches(signals, s, t, CloseHalfway(last, |signals|) + (CutThenEnter(next) + ([Deliver(g)] + Gos(6))));
  }

  // ---- What an undisturbed context and an undisturbed handler do

  /** The installing loop when setting the handlers of the signals in `raising` raises. */
  ghost function Installs(signals: seq<Signal>, raising: set<Signal>, m: nat): seq<Choice>
    requires m <= |signals|
  {
    if m == 0 then [] else Installs(signals, raising, m - 1) + InstallChoices(signals[m - 1] in raising)
  }

  function InstallChoices(raises: bool): seq<Choice> { if raises then [Fail] else Gos(2) }

  /** The shared state after that. */
  function RegisteredBut(signals: seq<Signal>, raising: set<Signal>, sh: Shared, m: nat): Shared
    requires m <= |signals|
  {
    if m == 0 then sh
    else
      var r, g := RegisteredBut(signals, raising, sh, m - 1), signals[m - 1];
      if g in raising then r
      else r.(table := r.table[g := Krkn], originals := r.originals[g := Prior(r.table, g)])
  }

  lemma {:induction false} RegisteredButAt(signals: seq<Signal>, raising: set<Signal>, sh: Shared, m: nat, g: Signal)
    requires Distinct(signals) && m <= |signals|
    ensures var r := RegisteredBut(signals, raising, sh, m);
            && r == sh.(table := r.table, originals := r.originals)
            && if g in signals[..m] && g !in raising then
                 && g in r.table && r.table[g].Krkn?
                 && g in r.originals && r.originals[g] == Prior(sh.table, g)
               else
                 && (g in r.table <==> g in sh.table) && (g in sh.table ==> r.table[g] == sh.table[g])
                 && (g in r.originals <==> g in sh.originals)
  {
    if m > 0 {
      RegisteredButAt(signals, raising, sh, m - 1, g);
      assert signals[..m] == signals[..m - 1] + [signals[m - 1]];
      assert signals[m - 1] !in signals[..m - 1];
    }
  }

  lemma {:induction false} InstallsDrive(signals: seq<Signal>, s: State, t: nat, sh: Shared, c: Context,
                                         raising: set<Signal>, m: nat)
    requires t < |s.threads| && sh.alive && m <= |signals|
    ensures RegisteredBut(signals, raising, sh, m).alive
    ensures Drive(signals, With(s, t, sh, Thread(c, [Main(c, RegisterInstall(0))])), t, Installs(signals, raising, m))
            == Some(With(s, t, RegisteredBut(signals, raising, sh, m), Thread(c, [Main(c, RegisterInstall(m))])))
  {
    hide Drive, Step, ThreadNext;
    var start := With(s, t, sh, Thread(c, [Main(c, RegisterInstall(0))]));
    if m == 0 {
      DriveNothing(signals, start, t);
      assert Gos(0) == [];
    } else {
      InstallsDrive(signals, s, t, sh, c, raising, m - 1);
      var r, r' := RegisteredBut(signals, raising, sh, m - 1), RegisteredBut(signals, raising, sh, m);
      InstallOne(signals, s, t, r, c, raising, m);
      DriveJoin(signals, start, t, Installs(signals, raising, m - 1), InstallChoices(signals[m - 1] in raising));
    }
  }

  lemma InstallOne(signals: seq<Signal>, s: State, t: nat, r: Shared, c: Context, raising: set<Signal>, m: nat)
    requires t < |s.threads| && r.alive && 0 < m <= |signals|
    ensures var g := signals[m - 1];
            var r' := if g in raising then r
                      else r.(table := r.table[g := Krkn], originals := r.originals[g := Prior(r.table, g)]);
            Drive(signals, With(s, t, r, Thread(c, [Main(c, RegisterInstall(m - 1))])), t, InstallChoices(g in raising))
            == Some(With(s, t, r', Thread(c, [Main(c, RegisterInstall(m))])))
  {
    hide Drive, Step, ThreadNext;
    var g := signals[m - 1];
    if g in raising {
      MainStep(signals, s, t, r, c, Main(c, RegisterInstall(m - 1)), Fail, r, c, Main(c, RegisterInstall(m)));
      DriveStep(signals, With(s, t, r, Thread(c, [Main(c, RegisterInstall(m - 1))])), t, Fail,
                With(s, t, r, Thread(c, [Main(c, RegisterInstall(m))])));
    } else {
      var half := r.(table := r.table[g := Krkn]);
      var r' := r.(table := r.table[g := Krkn], originals := r.originals[g := Prior(r.table, g)]);
      MainSteps(signals, s, t, [r, half, r'], [c, c, c],
                [Main(c, RegisterInstall(m - 1)), Main(c, RegisterSave(m - 1, Prior(r.table, g))),
                  Main(c, RegisterInstall(m))]);
    }
  }

  lemma DriveStep(signals: seq<Signal>, s: State, t: nat, c: Choice, s': State)
    requires Step(signals, s, t, c, s')
    ensures Drive(signals, s, t, [c]) == Some(s')
  {
    hide ThreadNext, Step;
    DriveOne(signals, s, t, c, [], s');
    assert [c] + [] == [c] && Gos(0) == [];
    DriveNothing(signals, s', t);
  }

  /** A context in a process that has not registered yet, with any signals whose handlers cannot be set:
      it leaves the lock free and its fields empty, and has put krkn's handler in place of exactly the other
      ones, with what was there before as their originals. */
  lemma ContextRegisters(signals: seq<Signal>, s: State, t: nat, c: Context, raising: set<Signal>)
    requires Distinct(signals) && t < |s.threads| && s.shared.alive && s.shared.lock.None? && !s.shared.installed
    requires s.threads[t] == Thread(NO_CONTEXT, [Main(NO_CONTEXT, Idle)])
    ensures var end := Drive(signals, s, t, ([Enter(c)] + Gos(5)) + (Installs(signals, raising, |signals|) + Gos(7)));
            && end.Some?
            && end.value.threads == s.threads[t := Thread(Context("", "", c.telemetry), [Main(NO_CONTEXT, Idle)])]
            && var sh := end.value.shared;
               && sh.alive && sh.lock.None? && sh.installed
               && sh.supplied == s.shared.supplied + {PairOf(c)} && sh.rollbacks == s.shared.rollbacks
               && (forall g :: g in signals && g !in raising ==>
                     && g in sh.table && sh.table[g].Krkn?
                     && g in sh.originals
                     && sh.originals[g] == if g in s.shared.table then s.shared.table[g] else Default)
               && (forall g :: g !in signals || g in raising ==>
                     && (g in sh.table <==> g in s.shared.table)
                     && (g in sh.table ==> sh.table[g] == s.shared.table[g])
                     && (g in sh.originals <==> g in s.shared.originals))
  {
    hide Drive, Step, ThreadNext, Gos, Installs, RegisteredBut;
    assert s == With(s, t, s.shared, Thread(NO_CONTEXT, [Main(NO_CONTEXT, Idle)]));
    Opening(signals, s, t, s.shared, NO_CONTEXT, c);
    var sh1 := s.shared.(supplied := s.shared.supplied + {PairOf(c)}, lock := Some(Holder(t, 0)));
    var r := RegisteredBut(signals, raising, sh1, |signals|);
    InstallsDrive(signals, s, t, sh1, c, raising, |signals|);
    assert signals[..|signals|] == signals;
    RegisteredButAt(signals, raising, sh1, |signals|, 0);
    forall g ensures
      && (g in signals && g !in raising ==>
           && g in r.table && r.table[g].Krkn? && g in r.originals && r.originals[g] == Prior(s.shared.table, g))
      && (g !in signals || g in raising ==>
           && (g in r.table <==> g in s.shared.table) && (g in r.table ==> r.table[g] == s.shared.table[g])
           && (g in r.originals <==> g in s.shared.originals))
    {
      RegisteredButAt(signals, raising, sh1, |signals|, g);
    }
    var on := r.(installed := true);
    Closing(signals, s, t, on, c);
    var flag := With(s, t, r, Thread(c, [Main(c, RegisterInstall(|signals|))]));
    MainSteps(signals, s, t, [r, r, on], [c, c, c],
              [Main(c, RegisterInstall(|signals|)), Main(c, RegisterFlag), Main(c, RegisterUnlock)]);
    GosJoin(2, 5);
    DriveJoin(signals, flag, t, Gos(2), Gos(5));
    var start := With(s, t, sh1, Thread(c, [Main(c, RegisterInstall(0))]));
    DriveJoin(signals, start, t, Installs(signals, raising, |signals|), Gos(7));
    DriveJoin(signals, s, t, [Enter(c)] + Gos(5), Installs(signals, raising, |signals|) + Gos(7));
  }

  /** From the end of a registration through the body to the end of the context. */
  lemma Closing(signals: seq<Signal>, s: State, t: nat, sh: Shared, c: Context)
    requires t < |s.threads| && sh.alive
    ensures Drive(signals, With(s, t, sh, Thread(c, [Main(c, RegisterUnlock)])), t, Gos(5))
            == Some(With(s, t, sh.(lock := None), Thread(Context("", "", c.telemetry), [Main(NO_CONTEXT, Idle)])))
  {
    hide Drive, Step, ThreadNext;
    var free := sh.(lock := None);
    var c1, c2 := c.(uuid := ""), Context("", "", c.telemetry);
    MainSteps(signals, s, t, [sh, free, free, free, free, free], [c, c, c, c1, c2, c2],
              [Main(c, RegisterUnlock), Main(c, Body), Main(c, ClearUuid), Main(c, ClearType), Main(c, ClearTelemetry),
               Main(NO_CONTEXT, Idle)]);
  }

  /** Once registered a context changes no handler. */
  lemma ContextAfterRegistration(signals: seq<Signal>, s: State, t: nat, l: Context, c: Context)
    requires t < |s.threads| && s.shared.alive && s.shared.lock.None? && s.shared.installed
    requires s.threads[t] == Thread(l, [Main(NO_CONTEXT, Idle)])
    ensures Drive(signals, s, t, [Enter(c)] + Gos(10)) ==
            Some(State(s.shared.(supplied := s.shared.supplied + {PairOf(c)}),
                       s.threads[t := Thread(Context("", "", c.telemetry), [Main(NO_CONTEXT, Idle)])]))
  {
    hide Drive, Step, ThreadNext;
    var sh := s.shared;
    var sh1 := sh.(supplied := sh.supplied + {PairOf(c)});
    var sh2 := sh1.(lock := Some(Holder(t, 0)));
    var l1 := l.(uuid := c.uuid);
    var l2 := l1.(scenarioType := c.scenarioType);
    assert s == With(s, t, sh, Thread(l, [Main(NO_CONTEXT, Idle)]));
    MainStep(signals, s, t, sh, l, Main(NO_CONTEXT, Idle), Enter(c), sh1, l, Main(c, SetUuid));
    var s1 := With(s, t, sh1, Thread(l, [Main(c, SetUuid)]));
    DriveOne(signals, s, t, Enter(c), Gos(10), s1);
    MainSteps(signals, s, t, [sh1, sh1, sh1, sh1, sh2, sh2], [l, l1, l2, c, c, c],
              [Main(c, SetUuid), Main(c, SetType), Main(c, SetTelemetry), Main(c, RegisterLock),
               Main(c, RegisterCheck), Main(c, RegisterUnlock)]);
    Closing(signals, s, t, sh2, c);
    GosJoin(5, 5);
    DriveJoin(signals, s1, t, Gos(5), Gos(5));
  }

  /** Where a handler stands after its rollback, which raised if `failed`, up to the call of the original. */
  function Chaining(l: Context, g: Signal, failed: bool): Frame { Handler(g, l, Chain, failed) }

  /** A handler that finds a complete context and the lock free rolls it back, clears it, and frees the
      lock again, whether the rollback raises or not. */
  lemma HandlerRuns(signals: seq<Signal>, s: State, t: nat, sh: Shared, l: Context, m: Frame, g: Signal, failed: bool)
    requires t < |s.threads| && m.Main? && Complete(l)
    requires sh.alive && sh.lock.None? && g in sh.table && sh.table[g].Krkn?
    ensures Drive(signals, With(s, t, sh, Thread(l, [m])), t,
                  ([Deliver(g)] + Gos(5)) + ([if failed then Fail else Go] + Gos(4))) ==
            Some(With(s, t, sh.(rollbacks := sh.rollbacks + [PairOf(l)]),
                      Thread(Context("", "", l.telemetry), [m, Chaining(l, g, failed)])))
  {
    hide Drive, Gos;
    HandlerReaches(signals, s, t, sh, l, m, g);
    HandlerFinishes(signals, s, t, sh, l, m, g, failed);
    DriveJoin(signals, With(s, t, sh, Thread(l, [m])), t, [Deliver(g)] + Gos(5),
              [if failed then Fail else Go] + Gos(4));
  }

  /** From taking the lock to freeing it. */
  lemma HandlerFinishes(signals: seq<Signal>, s: State, t: nat, sh: Shared, l: Context, m: Frame, g: Signal,
                        failed: bool)
    requires t < |s.threads| && m.Main? && sh.alive && sh.lock.None?
    ensures Drive(signals,
                  With(s, t, sh.(lock := Some(Holder(t, 1))), Thread(l, [m, Handler(g, l, Rollback, false)])), t,
                  [if failed then Fail else Go] + Gos(4)) ==
            Some(With(s, t, sh.(rollbacks := sh.rollbacks + [PairOf(l)]),
                      Thread(Context("", "", l.telemetry), [m, Chaining(l, g, failed)])))
  {
    var f5, f6 := Handler(g, l, Rollback, false), Handler(g, l, ResetUuid, failed);
    var me, c := Holder(t, 1), if failed then Fail else Go;
    var sh5 := sh.(lock := Some(me));
    var sh6 := sh5.(rollbacks := sh.rollbacks + [PairOf(l)]);
    var sh7 := sh.(rollbacks := sh.rollbacks + [PairOf(l)]);
    var l1, l2 := l.(uuid := ""), Context("", "", l.telemetry);
    assert sh6.(lock := None) == sh7;
    ResetSteps(me, sh6, l, g, failed);
    assert HandlerNext(me, sh5, l, f5, c) == Some(Stay(sh6, l, f6));
    hide ThreadNext, Drive, Step, HandlerNext, Gos;
    HandlerStep(signals, s, t, sh5, l, m, f5, c, sh6, l, f6);
    HandlerSteps(signals, s, t, m,
                 [f6, f6.(pc := ResetType), f6.(pc := ResetTelemetry), f6.(pc := Unlock), f6.(pc := Chain)],
                 [sh6, sh6, sh6, sh6, sh7], [l, l1, l2, l2, l2]);
    DriveOne(signals, With(s, t, sh5, Thread(l, [m, f5])), t, c, Gos(4), With(s, t, sh6, Thread(l, [m, f6])));
  }

  lemma ResetSteps(me: Holder, sh: Shared, l: Context, g: Signal, failed: bool)
    ensures var f := Handler(g, l, ResetUuid, failed);
            var l1, l2 := l.(uuid := ""), Context("", "", l.telemetry);
            && HandlerNext(me, sh, l, f, Go) == Some(Stay(sh, l1, f.(pc := ResetType)))
            && HandlerNext(me, sh, l1, f.(pc := ResetType), Go) == Some(Stay(sh, l2, f.(pc := ResetTelemetry)))
            && HandlerNext(me, sh, l2, f.(pc := ResetTelemetry), Go) == Some(Stay(sh, l2, f.(pc := Unlock)))
            && HandlerNext(me, sh, l2, f.(pc := Unlock), Go) == Some(Stay(sh.(lock := None), l2, f.(pc := Chain)))
  {
  }

  /** After a rollback that did not raise the handler calls the original: the default one is put back and
      ends the process, krkn's own begins anew, any other or none leaves it to return. */
  lemma HandlerChains(signals: seq<Signal>, s: State, t: nat, sh: Shared, l: Context, m: Frame, read: Context,
                      g: Signal)
    requires t < |s.threads| && m.Main? && sh.alive
    ensures Drive(signals, With(s, t, sh, Thread(l, [m, Chaining(read, g, false)])), t, [Go]) ==
            if g in sh.originals && sh.originals[g].Default?
            then Some(With(s, t, sh.(table := sh.table[g := Default], alive := false), Thread(l, [m])))
            else if g in sh.originals && sh.originals[g].Krkn?
            then Some(With(s, t, sh, Thread(l, [m, Handler(g, NO_CONTEXT, GetUuid, false)])))
            else Some(With(s, t, sh, Thread(l, [m])))
  {
    var f := Chaining(read, g, false);
    var s0 := With(s, t, sh, Thread(l, [m, f]));
    if g in sh.originals && sh.originals[g].Default? {
      var off := sh.(table := sh.table[g := Default], alive := false);
      ReturnStep(signals, s, t, sh, l, m, f, off);
      DriveStep(signals, s0, t, Go, With(s, t, off, Thread(l, [m])));
    } else if g in sh.originals && sh.originals[g].Krkn? {
      HandlerStep(signals, s, t, sh, l, m, f, Go, sh, l, Handler(g, NO_CONTEXT, GetUuid, false));
      DriveStep(signals, s0, t, Go, With(s, t, sh, Thread(l, [m, Handler(g, NO_CONTEXT, GetUuid, false)])));
    } else {
      ReturnStep(signals, s, t, sh, l, m, f, sh);
      DriveStep(signals, s0, t, Go, With(s, t, sh, Thread(l, [m])));
    }
  }

  lemma ReturnStep(signals: seq<Signal>, s: State, t: nat, sh: Shared, l: Context, m: Frame, f: Frame, sh': Shared)
    requires t < |s.threads| && m.Main? && f.Handler? && sh.alive
    requires HandlerNext(Holder(t, 1), sh, l, f, Go) == Some(Return(sh'))
    ensures Step(signals, With(s, t, sh, Thread(l, [m, f])), t, Go, With(s, t, sh', Thread(l, [m])))
  {
    assert [m, f][..1] == [m];
  }

  /** The exception of a rollback, or of a foreign original, leaves the handler: the scenario's own code
      may catch it, else its context is closed in the ordinary way. */
  lemma ExceptionLeavesHandler(signals: seq<Signal>, s: State, t: nat, sh: Shared, l: Context, c: Context,
                               read: Context, g: Signal, failed: bool, stays: bool)
    requires t < |s.threads| && sh.alive
    requires failed || (g in sh.originals && sh.originals[g].Foreign?)
    ensures Drive(signals, With(s, t, sh, Thread(l, [Main(c, Body), Chaining(read, g, failed)])), t,
                  [Raise(0, stays)]) ==
            Some(With(s, t, sh, Thread(l, [Main(c, if stays then Body else ClearUuid)])))
  {
    var f, after := Chaining(read, g, failed), Main(c, if stays then Body else ClearUuid);
    var th := Thread(l, [Main(c, Body), f]);
    assert HandlerNext(Holder(t, 1), sh, l, f, Raise(0, stays)) == Some(Throw(sh));
    assert Unwind(th, 0, stays) == Some(Thread(l, [after]));
    DriveStep(signals, With(s, t, sh, th), t, Raise(0, stays), With(s, t, sh, Thread(l, [after])));
  }

  /** In general such an exception ends at a foreign original that some older handler is calling, which then
      goes on, or in the ordinary code: there at the scenario, whose context is closed unless it catches the
      exception itself, or it leaves a context that is being opened or closed as it is. */
  lemma ExceptionEnds(signals: seq<Signal>, s: State, t: nat, depth: nat, stays: bool)
    requires t < |s.threads| && Shaped(s.threads[t]) && s.shared.alive && |s.threads[t].stack| > 1
    requires var f := s.threads[t].stack[|s.threads[t].stack| - 1];
             f.pc.Chain? && (f.failed || (f.signal in s.shared.originals && s.shared.originals[f.signal].Foreign?))
    ensures var stack := s.threads[t].stack;
            (exists s' :: Step(signals, s, t, Raise(depth, stays), s')) <==>
              depth < |stack| - 1 && (depth == 0 || (stack[depth].pc.Chain? && !stack[depth].failed))
    ensures forall s' :: Step(signals, s, t, Raise(depth, stays), s') ==>
              var stack, m := s.threads[t].stack, s.threads[t].stack[0];
              && s'.shared == s.shared && s'.threads[t].local == s.threads[t].local
              && (depth > 0 ==> s'.threads[t].stack == stack[..depth + 1])
              && (depth == 0 && (m.at.Idle? || (m.at.Body? && stays)) ==> s'.threads[t].stack == [m])
              && (depth == 0 && m.at.Body? && !stays ==> s'.threads[t].stack == [Main(m.context, ClearUuid)])
              && (depth == 0 && !m.at.Idle? && !m.at.Body? ==> s'.threads[t].stack == [Main(NO_CONTEXT, Idle)])
  {
    var r := ThreadNext(signals, t, s.shared, s.threads[t], Raise(depth, stays));
    if r.Some? {
      assert Step(signals, s, t, Raise(depth, stays), State(r.value.shared, s.threads[t := r.value.thread]));
    }
  }

  /** Once other code has taken a signal over, that signal runs no handler of krkn's. */
  lemma TakenOver(signals: seq<Signal>, s: State, t: nat, g: Signal, d: Disposition, s': State)
    requires Step(signals, s, t, Install(g, d), s')
    ensures forall u, s'' :: !Step(signals, s', u, Deliver(g), s'')
    ensures forall h :: h != g ==>
              (h in s'.shared.table <==> h in s.shared.table)
              && (h in s.shared.table ==> s'.shared.table[h] == s.shared.table[h])
  {
  }
}
