/** Updaters, watchers and Close over one proxy store, as interleaved atomic steps.

    The store carries a read-write lock, and a condition variable with its own
    mutex guarding the revision and the closed flag. Every list of moves is an
    interleaving: a move of a thread that is blocked changes nothing. */
module ProxyProtocol {
  import opened Options

  type Tid = nat

  /** The transactions: what each does to the data, and whether it counts a change. */
  datatype Txns<!D, !T> = Txns(commit: (D, T) -> D, counts: (D, T) -> bool)

  ghost predicate Faithful<D(!new), T(!new)>(tx: Txns<D, T>) {
    forall d: D, x: T :: !tx.counts(d, x) ==> tx.commit(d, x) == d
  }

  /** Where a thread stands; the comment says what it does next. */
  datatype Pc<D, T> =
    | Idle
    | ULock(x: T)            // take the write lock
    | UBody(x: T)            // run the transaction
    | UMutex(x: T)           // take the mutex
    | URevision(x: T)        // increment the revision
    | UBroadcast                     // wake the watchers
    | UMutexUnlock                   // release the mutex
    | UUnlock                        // release the write lock
    | VMutex(after: nat)             // take the mutex
    | VCheck(after: nat)             // go to sleep or leave the loop
    | VAsleep(after: nat)            // on the notify list, mutex released
    | VWoken(after: nat)             // take the mutex again
    | VMutexUnlock(after: nat)       // release the mutex
    | VRLock(after: nat)             // take the read lock
    | VClosed(after: nat)            // look at the closed flag
    | VView(after: nat)              // run the view callback
    | VReturn(after: nat, seen: D) // return revision and closed flag, release the read lock
    | CMutex                         // take the mutex
    | CClose                         // set the closed flag
    | CBroadcast                     // wake the watchers
    | CMutexUnlock                   // release the mutex

  datatype Call<T> = CallUpdate(x: T) | CallView(after: nat) | CallClose

  /** What a View returned, with the data its callback saw, if it ran. */
  datatype Outcome<D> = Outcome(after: nat, rev: nat, closed: bool, seen: Option<D>)

  /** For the statements below only, ran records the transactions whose body has run, in that order,
      and log those that raised the revision. */
  datatype State<D, T> = State(
    rev: nat, closed: bool, data: D,
    mutex: Option<Tid>, writer: Option<Tid>, readers: set<Tid>,
    pc: map<Tid, Pc<D, T>>, outcomes: seq<Outcome<D>>, ran: seq<T>, log: seq<T>)

  datatype Move<T> = Move(t: Tid, call: Call<T>)

  /** The data after the transactions, one after the other. */
  function Replay<D, T>(tx: Txns<D, T>, d: D, log: seq<T>): D {
    if log == [] then d else tx.commit(Replay(tx, d, log[..|log| - 1]), log[|log| - 1])
  }

  /** Those of the transactions that count a change on the data they meet. */
  function Counting<D, T>(tx: Txns<D, T>, d: D, ran: seq<T>): seq<T> {
    if ran == [] then []
    else
      var before, x := ran[..|ran| - 1], ran[|ran| - 1];
      Counting(tx, d, before) + if tx.counts(Replay(tx, d, before), x) then [x] else []
  }

  lemma OneMoreRan<D(!new), T(!new)>(tx: Txns<D, T>, d: D, ran: seq<T>, x: T)
    ensures Replay(tx, d, ran + [x]) == tx.commit(Replay(tx, d, ran), x)
    ensures Counting(tx, d, ran + [x]) == Counting(tx, d, ran) + if tx.counts(Replay(tx, d, ran), x) then [x] else []
  {
    assert (ran + [x])[..|ran|] == ran;
  }

  /** The transactions that count account for all of the data, and each of them counts where it stands among them. */
  lemma {:induction false} CountingSuffice<D(!new), T(!new)>(tx: Txns<D, T>, d: D, ran: seq<T>)
    requires Faithful(tx)
    ensures Replay(tx, d, Counting(tx, d, ran)) == Replay(tx, d, ran)
    ensures AllCount(tx, d, Counting(tx, d, ran))
  {
    if ran != [] {
      var before, x := ran[..|ran| - 1], ran[|ran| - 1];
      var counted := Counting(tx, d, before);
      CountingSuffice(tx, d, before);
      if tx.counts(Replay(tx, d, before), x) {
        OneMoreRan(tx, d, counted, x);
        AllCountOneMore(tx, d, counted, x);
      } else {
        assert Counting(tx, d, ran) == counted + [] == counted;
      }
    }
  }

  ghost predicate AllCount<D, T>(tx: Txns<D, T>, d: D, log: seq<T>) {
    forall i :: 0 <= i < |log| ==> tx.counts(Replay(tx, d, log[..i]), log[i])
  }

  lemma AllCountOneMore<D(!new), T(!new)>(tx: Txns<D, T>, d: D, log: seq<T>, x: T)
    requires AllCount(tx, d, log) && tx.counts(Replay(tx, d, log), x)
    ensures AllCount(tx, d, log + [x])
  {
    var more := log + [x];
    forall i | 0 <= i < |more| ensures tx.counts(Replay(tx, d, more[..i]), more[i]) {
      assert more[..i] == log[..i];
      assert i == |log| ==> log[..i] == log;
    }
  }

  // Steps

  predicate NeedsMutex<D, T>(pc: Pc<D, T>) {
    pc.UMutex? || pc.VMutex? || pc.VWoken? || pc.CMutex?
  }

  predicate Enabled<D, T>(s: State<D, T>, t: Tid) {
    && t in s.pc && !s.pc[t].VAsleep?
    && (NeedsMutex(s.pc[t]) ==> s.mutex.None?)
    && (s.pc[t].ULock? ==> s.writer.None? && s.readers == {})
    && (s.pc[t].VRLock? ==> s.writer.None?)
  }

  function Start<D, T>(call: Call<T>): Pc<D, T> {
    match call
    case CallUpdate(x) => ULock(x)
    case CallView(after) => VMutex(after)
    case CallClose => CMutex
  }

  function Goto<D, T>(s: State<D, T>, t: Tid, pc: Pc<D, T>): State<D, T> {
    s.(pc := s.pc[t := pc])
  }

  /** Broadcast moves every sleeper off the notify list. */
  function WakeAll<D, T>(pc: map<Tid, Pc<D, T>>): map<Tid, Pc<D, T>> {
    map t | t in pc :: if pc[t].VAsleep? then VWoken(pc[t].after) else pc[t]
  }

  function Leave<D, T>(s: State<D, T>, t: Tid, outcome: Outcome<D>): State<D, T> {
    Goto(s.(readers := s.readers - {t}, outcomes := s.outcomes + [outcome]), t, Idle)
  }

  predicate Updating<D, T>(pc: Pc<D, T>) {
    pc.ULock? || HoldsWrite(pc)
  }

  predicate Closing<D, T>(pc: Pc<D, T>) {
    pc.CMutex? || pc.CClose? || pc.CBroadcast? || pc.CMutexUnlock?
  }

  function UpdateStep<D, T>(tx: Txns<D, T>, s: State<D, T>, t: Tid): State<D, T>
    requires Enabled(s, t) && Updating(s.pc[t])
  {
    match s.pc[t]
    case ULock(x) => Goto(s.(writer := Some(t)), t, UBody(x))
    case UBody(x) =>
      Goto(s.(data := tx.commit(s.data, x), ran := s.ran + [x]), t, if tx.counts(s.data, x) then UMutex(x) else UUnlock)
    case UMutex(x) => Goto(s.(mutex := Some(t)), t, URevision(x))
    case URevision(x) => Goto(s.(rev := s.rev + 1, log := s.log + [x]), t, UBroadcast)
    case UBroadcast => Goto(s.(pc := WakeAll(s.pc)), t, UMutexUnlock)
    case UMutexUnlock => Goto(s.(mutex := None), t, UUnlock)
    case UUnlock => Goto(s.(writer := None), t, Idle)
  }

  function CloseStep<D, T>(s: State<D, T>, t: Tid): State<D, T>
    requires Enabled(s, t) && Closing(s.pc[t])
  {
    match s.pc[t]
    case CMutex => Goto(s.(mutex := Some(t)), t, CClose)
    case CClose => Goto(s.(closed := true), t, CBroadcast)
    case CBroadcast => Goto(s.(pc := WakeAll(s.pc)), t, CMutexUnlock)
    case CMutexUnlock => Goto(s.(mutex := None), t, Idle)
  }

  predicate Reading<D, T>(pc: Pc<D, T>) {
    pc.VRLock? || HoldsRead(pc)
  }

  predicate Watching<D, T>(pc: Pc<D, T>) {
    pc.VMutex? || pc.VCheck? || pc.VWoken? || pc.VMutexUnlock?
  }

  function WatchStep<D, T>(s: State<D, T>, t: Tid): State<D, T>
    requires Enabled(s, t) && Watching(s.pc[t])
  {
    match s.pc[t]
    case VMutex(after) => Goto(s.(mutex := Some(t)), t, VCheck(after))
    case VCheck(after) =>
      if s.rev <= after && !s.closed then Goto(s.(mutex := None), t, VAsleep(after)) else Goto(s, t, VMutexUnlock(after))
    case VWoken(after) => Goto(s.(mutex := Some(t)), t, VCheck(after))
    case VMutexUnlock(after) => Goto(s.(mutex := None), t, VRLock(after))
  }

  function ReadStep<D, T>(s: State<D, T>, t: Tid): State<D, T>
    requires Enabled(s, t) && Reading(s.pc[t])
  {
    match s.pc[t]
    case VRLock(after) => Goto(s.(readers := s.readers + {t}), t, VClosed(after))
    case VClosed(after) =>
      if s.closed then Leave(s, t, Outcome(after, 0, s.closed, None)) else Goto(s, t, VView(after))
    case VView(after) => Goto(s, t, VReturn(after, s.data))
    case VReturn(after, seen) => Leave(s, t, Outcome(after, s.rev, s.closed, Some(seen)))
  }

  function Step<D, T>(tx: Txns<D, T>, s: State<D, T>, t: Tid, call: Call<T>): State<D, T>
    requires Enabled(s, t)
  {
    if s.pc[t].Idle? then Goto(s, t, Start(call))
    else if Updating(s.pc[t]) then UpdateStep(tx, s, t)
    else if Closing(s.pc[t]) then CloseStep(s, t)
    else if Watching(s.pc[t]) then WatchStep(s, t)
    else ReadStep(s, t)
  }

  function Exec<D, T>(tx: Txns<D, T>, s: State<D, T>, moves: seq<Move<T>>): State<D, T> {
    if moves == [] then s
    else
      var before := Exec(tx, s, moves[..|moves| - 1]);
      var m := moves[|moves| - 1];
      if Enabled(before, m.t) then Step(tx, before, m.t, m.call) else before
  }

  ghost predicate Initial<D, T>(s: State<D, T>) {
    && s.rev == 0 && !s.closed && s.mutex.None? && s.writer.None? && s.readers == {}
    && s.outcomes == [] && s.ran == [] && s.log == [] && forall t :: t in s.pc ==> s.pc[t].Idle?
  }

  // The invariant

  predicate HoldsMutex<D, T>(pc: Pc<D, T>) {
    || pc.URevision? || pc.UBroadcast? || pc.UMutexUnlock? || pc.VCheck? || pc.VMutexUnlock?
    || pc.CClose? || pc.CBroadcast? || pc.CMutexUnlock?
  }

  predicate HoldsWrite<D, T>(pc: Pc<D, T>) {
    pc.UBody? || pc.UMutex? || pc.URevision? || pc.UBroadcast? || pc.UMutexUnlock? || pc.UUnlock?
  }

  predicate HoldsRead<D, T>(pc: Pc<D, T>) {
    pc.VClosed? || pc.VView? || pc.VReturn?
  }

  /** The transaction whose changes are in the data but not yet in the revision. */
  predicate Unpublished<D, T>(pc: Pc<D, T>) {
    pc.UMutex? || pc.URevision?
  }

  ghost predicate MutexOk<D, T>(s: State<D, T>) {
    && (forall t :: t in s.pc ==> (HoldsMutex(s.pc[t]) <==> s.mutex == Some(t)))
    && (s.mutex.Some? ==> s.mutex.value in s.pc)
  }

  ghost predicate WriteLockOk<D, T>(s: State<D, T>) {
    && (forall t :: t in s.pc ==> (HoldsWrite(s.pc[t]) <==> s.writer == Some(t)))
    && (s.writer.Some? ==> s.writer.value in s.pc && s.readers == {})
  }

  ghost predicate ReadLockOk<D, T>(s: State<D, T>) {
    && (forall t :: t in s.pc ==> (HoldsRead(s.pc[t]) <==> t in s.readers))
    && s.readers <= s.pc.Keys
  }

  ghost predicate Locks<D, T>(s: State<D, T>) {
    MutexOk(s) && WriteLockOk(s) && ReadLockOk(s)
  }

  /** The transaction that has counted a change and not yet raised the revision, if any. */
  function Pending<D, T>(s: State<D, T>): seq<T> {
    if s.writer.Some? && s.writer.value in s.pc && Unpublished(s.pc[s.writer.value]) then [s.pc[s.writer.value].x] else []
  }

  /** The data is that of the transactions that ran; those that counted have raised the revision once each,
      but for the pending one. */
  ghost predicate Published<D, T>(tx: Txns<D, T>, init: D, s: State<D, T>) {
    && |s.log| == s.rev
    && s.data == Replay(tx, init, s.ran)
    && Counting(tx, init, s.ran) == s.log + Pending(s)
  }

  /** The thread has set what sleepers wait for and is about to wake them. */
  ghost predicate AboutToWake<D, T>(s: State<D, T>) {
    s.mutex.Some? && s.mutex.value in s.pc && (s.pc[s.mutex.value].UBroadcast? || s.pc[s.mutex.value].CBroadcast?)
  }

  ghost predicate SleeperOk<D, T>(s: State<D, T>, pc: Pc<D, T>) {
    pc.VAsleep? ==> (s.rev <= pc.after && !s.closed) || AboutToWake(s)
  }

  ghost predicate WatcherOk<D, T>(tx: Txns<D, T>, init: D, s: State<D, T>, pc: Pc<D, T>) {
    && (pc.VMutexUnlock? || pc.VRLock? || pc.VClosed? ==> s.rev > pc.after || s.closed)
    && (pc.VView? || pc.VReturn? ==> s.rev > pc.after)
    && (pc.VReturn? ==> pc.seen == Replay(tx, init, s.log))
  }

  /** A View that ran its callback saw exactly the data of the revision it returns. */
  ghost predicate OutcomeOk<D, T>(tx: Txns<D, T>, init: D, s: State<D, T>, o: Outcome<D>) {
    && (o.seen.None? ==> o.closed)
    && (o.seen.Some? ==> o.after < o.rev <= |s.log| && o.seen.value == Replay(tx, init, s.log[..o.rev]))
  }

  ghost predicate Inv<D, T>(tx: Txns<D, T>, init: D, s: State<D, T>) {
    && Locks(s) && Published(tx, init, s)
    && (forall t :: t in s.pc ==> SleeperOk(s, s.pc[t]))
    && (forall t :: t in s.pc ==> WatcherOk(tx, init, s, s.pc[t]))
    && (forall o :: o in s.outcomes ==> OutcomeOk(tx, init, s, o))
  }

  /** A step moves its own thread; the others at most wake up. */
  ghost predicate OthersKeep<D, T>(s: State<D, T>, s': State<D, T>, t: Tid) {
    && s'.pc.Keys == s.pc.Keys && t in s.pc
    && forall u :: u in s.pc && u != t ==>
         s'.pc[u] == s.pc[u] || (s.pc[u].VAsleep? && s'.pc[u] == VWoken(s.pc[u].after))
  }

  /** How a step treats the locks. */
  ghost predicate Disciplined<D, T>(s: State<D, T>, s': State<D, T>, t: Tid)
    requires t in s.pc && t in s'.pc
  {
    && (HoldsMutex(s'.pc[t]) <==> s'.mutex == Some(t))
    && (s'.mutex == s.mutex || (s.mutex.None? && s'.mutex == Some(t)) || (s.mutex == Some(t) && s'.mutex.None?))
    && (HoldsWrite(s'.pc[t]) <==> s'.writer == Some(t))
    && (s'.writer == s.writer || (s.writer.None? && s.readers == {} && s'.writer == Some(t)) || (s.writer == Some(t) && s'.writer.None?))
    && (HoldsRead(s'.pc[t]) <==> t in s'.readers)
    && (s'.readers == s.readers || (s.writer.None? && s'.readers == s.readers + {t}) || s'.readers == s.readers - {t})
    && (s'.readers != s.readers ==> s'.writer == s.writer)
  }

  predicate Broadcasts<D, T>(pc: Pc<D, T>) {
    pc.UBroadcast? || pc.CBroadcast?
  }

  /** What sleepers wait for only changes on the way to a broadcast. */
  ghost predicate Announced<D, T>(s: State<D, T>, s': State<D, T>, t: Tid)
    requires t in s.pc && t in s'.pc
  {
    && s'.rev >= s.rev && (s.closed ==> s'.closed)
    && (s'.rev != s.rev || s'.closed != s.closed ==> s'.mutex == Some(t) && Broadcasts(s'.pc[t]))
    && (Broadcasts(s.pc[t]) ==> forall u :: u in s'.pc ==> !s'.pc[u].VAsleep?)
    && (s'.pc[t].VAsleep? ==> s'.rev <= s'.pc[t].after && !s'.closed)
  }

  /** The data only changes in a transaction body, the log only with the revision. */
  ghost predicate Logged<D, T>(tx: Txns<D, T>, s: State<D, T>, s': State<D, T>, t: Tid)
    requires t in s.pc && t in s'.pc
  {
    match s.pc[t]
    case UBody(x) =>
      && s'.data == tx.commit(s.data, x) && s'.ran == s.ran + [x] && s'.log == s.log && s'.rev == s.rev && s'.writer == s.writer
      && s'.pc[t] == (if tx.counts(s.data, x) then UMutex(x) else UUnlock)
    case UMutex(x) =>
      && s'.data == s.data && s'.ran == s.ran && s'.log == s.log && s'.rev == s.rev && s'.writer == s.writer
      && s'.pc[t] == URevision(x)
    case URevision(x) =>
      && s'.data == s.data && s'.ran == s.ran && s'.log == s.log + [x] && s'.rev == s.rev + 1 && s'.writer == s.writer
      && s'.pc[t] == UBroadcast
    case _ =>
      s'.data == s.data && s'.ran == s.ran && s'.log == s.log && s'.rev == s.rev && !Unpublished(s'.pc[t])
  }

  /** What a step leaves true of its own thread if it is a View. */
  ghost predicate Watched<D, T>(s: State<D, T>, s': State<D, T>, t: Tid)
    requires t in s.pc && t in s'.pc
  {
    match s'.pc[t]
    case VMutexUnlock(after) => s'.rev > after || s'.closed
    case VRLock(after) => s.pc[t] == VMutexUnlock(after)
    case VClosed(after) => s.pc[t] == VRLock(after)
    case VView(after) => s.pc[t] == VClosed(after) && !s.closed
    case VReturn(after, seen) => s.pc[t] == VView(after) && seen == s.data
    case _ => true
  }

  ghost predicate ShapeOk<D, T>(s: State<D, T>, s': State<D, T>, t: Tid) {
    OthersKeep(s, s', t) && Disciplined(s, s', t)
  }

  ghost predicate EffectOk<D, T>(tx: Txns<D, T>, s: State<D, T>, s': State<D, T>, t: Tid) {
    t in s.pc && t in s'.pc && Announced(s, s', t) && Logged(tx, s, s', t) && Watched(s, s', t)
  }

  ghost predicate StepOk<D, T>(tx: Txns<D, T>, s: State<D, T>, s': State<D, T>, t: Tid) {
    ShapeOk(s, s', t) && EffectOk(tx, s, s', t)
  }

  lemma UpdateOthers<D(!new), T(!new)>(tx: Txns<D, T>, s: State<D, T>, t: Tid)
    requires Enabled(s, t) && Updating(s.pc[t])
    ensures OthersKeep(s, UpdateStep(tx, s, t), t)
  {
  }

  lemma UpdateLocks<D(!new), T(!new)>(tx: Txns<D, T>, s: State<D, T>, t: Tid)
    requires Locks(s) && Enabled(s, t) && Updating(s.pc[t])
    ensures t in UpdateStep(tx, s, t).pc && Disciplined(s, UpdateStep(tx, s, t), t)
  {
    assert HoldsMutex(s.pc[t]) <==> s.mutex == Some(t);
    assert HoldsWrite(s.pc[t]) <==> s.writer == Some(t);
    assert HoldsRead(s.pc[t]) <==> t in s.readers;
  }

  lemma UpdateEffect<D(!new), T(!new)>(tx: Txns<D, T>, s: State<D, T>, t: Tid)
    requires Locks(s) && Enabled(s, t) && Updating(s.pc[t])
    ensures EffectOk(tx, s, UpdateStep(tx, s, t), t)
  {
    assert HoldsMutex(s.pc[t]) <==> s.mutex == Some(t);
  }

  lemma CloseOthers<D(!new), T(!new)>(s: State<D, T>, t: Tid)
    requires Enabled(s, t) && Closing(s.pc[t])
    ensures OthersKeep(s, CloseStep(s, t), t)
  {
  }

  lemma CloseLocks<D(!new), T(!new)>(s: State<D, T>, t: Tid)
    requires Locks(s) && Enabled(s, t) && Closing(s.pc[t])
    ensures t in CloseStep(s, t).pc && Disciplined(s, CloseStep(s, t), t)
  {
    assert HoldsMutex(s.pc[t]) <==> s.mutex == Some(t);
    assert HoldsWrite(s.pc[t]) <==> s.writer == Some(t);
    assert HoldsRead(s.pc[t]) <==> t in s.readers;
  }

  lemma CloseEffect<D(!new), T(!new)>(tx: Txns<D, T>, s: State<D, T>, t: Tid)
    requires Locks(s) && Enabled(s, t) && Closing(s.pc[t])
    ensures EffectOk(tx, s, CloseStep(s, t), t)
  {
    assert HoldsMutex(s.pc[t]) <==> s.mutex == Some(t);
  }

  lemma WatchOthers<D(!new), T(!new)>(s: State<D, T>, t: Tid)
    requires Enabled(s, t) && Watching(s.pc[t])
    ensures OthersKeep(s, WatchStep(s, t), t)
  {
  }

  lemma WatchLocks<D(!new), T(!new)>(s: State<D, T>, t: Tid)
    requires Locks(s) && Enabled(s, t) && Watching(s.pc[t])
    ensures t in WatchStep(s, t).pc && Disciplined(s, WatchStep(s, t), t)
  {
    assert HoldsMutex(s.pc[t]) <==> s.mutex == Some(t);
    assert HoldsWrite(s.pc[t]) <==> s.writer == Some(t);
    assert HoldsRead(s.pc[t]) <==> t in s.readers;
  }

  lemma WatchEffect<D(!new), T(!new)>(tx: Txns<D, T>, s: State<D, T>, t: Tid)
    requires Locks(s) && Enabled(s, t) && Watching(s.pc[t])
    ensures EffectOk(tx, s, WatchStep(s, t), t)
  {
    assert HoldsMutex(s.pc[t]) <==> s.mutex == Some(t);
  }

  lemma ReadOthers<D(!new), T(!new)>(s: State<D, T>, t: Tid)
    requires Enabled(s, t) && Reading(s.pc[t])
    ensures OthersKeep(s, ReadStep(s, t), t)
  {
  }

  lemma ReadLocks<D(!new), T(!new)>(s: State<D, T>, t: Tid)
    requires Locks(s) && Enabled(s, t) && Reading(s.pc[t])
    ensures t in ReadStep(s, t).pc && Disciplined(s, ReadStep(s, t), t)
  {
    assert HoldsMutex(s.pc[t]) <==> s.mutex == Some(t);
    assert HoldsWrite(s.pc[t]) <==> s.writer == Some(t);
    assert HoldsRead(s.pc[t]) <==> t in s.readers;
  }

  lemma ReadEffect<D(!new), T(!new)>(tx: Txns<D, T>, s: State<D, T>, t: Tid)
    requires Locks(s) && Enabled(s, t) && Reading(s.pc[t])
    ensures EffectOk(tx, s, ReadStep(s, t), t)
  {
    assert HoldsMutex(s.pc[t]) <==> s.mutex == Some(t);
  }

  lemma StartOk<D(!new), T(!new)>(tx: Txns<D, T>, s: State<D, T>, t: Tid, call: Call<T>)
    requires Locks(s) && Enabled(s, t) && s.pc[t].Idle?
    ensures StepOk(tx, s, Goto(s, t, Start(call)), t)
  {
    assert HoldsMutex(s.pc[t]) <==> s.mutex == Some(t);
    assert HoldsWrite(s.pc[t]) <==> s.writer == Some(t);
    assert HoldsRead(s.pc[t]) <==> t in s.readers;
  }

  lemma EveryStepOk<D(!new), T(!new)>(tx: Txns<D, T>, s: State<D, T>, t: Tid, call: Call<T>)
    requires Locks(s) && Enabled(s, t)
    ensures StepOk(tx, s, Step(tx, s, t, call), t)
  {
    if s.pc[t].Idle? {
      StartOk(tx, s, t, call);
    } else if Updating(s.pc[t]) {
      UpdateOthers(tx, s, t);
      UpdateLocks(tx, s, t);
      UpdateEffect(tx, s, t);
    } else if Closing(s.pc[t]) {
      CloseOthers(s, t);
      CloseLocks(s, t);
      CloseEffect(tx, s, t);
    } else if Watching(s.pc[t]) {
      WatchOthers(s, t);
      WatchLocks(s, t);
      WatchEffect(tx, s, t);
    } else {
      ReadOthers(s, t);
      ReadLocks(s, t);
      ReadEffect(tx, s, t);
    }
  }

  lemma LocksKept<D(!new), T(!new)>(s: State<D, T>, s': State<D, T>, t: Tid)
    requires Locks(s) && OthersKeep(s, s', t) && Disciplined(s, s', t)
    ensures Locks(s')
  {
  }

  lemma SleepersKept<D(!new), T(!new)>(s: State<D, T>, s': State<D, T>, t: Tid)
    requires Locks(s) && OthersKeep(s, s', t) && Disciplined(s, s', t) && Announced(s, s', t)
    requires forall u :: u in s.pc ==> SleeperOk(s, s.pc[u])
    ensures forall u :: u in s'.pc ==> SleeperOk(s', s'.pc[u])
  {
    forall u | u in s'.pc ensures SleeperOk(s', s'.pc[u]) {
      assert SleeperOk(s, s.pc[u]);
    }
  }

  lemma PublishedKept<D(!new), T(!new)>(tx: Txns<D, T>, init: D, s: State<D, T>, s': State<D, T>, t: Tid)
    requires Locks(s) && OthersKeep(s, s', t) && Disciplined(s, s', t) && Logged(tx, s, s', t)
    requires Published(tx, init, s)
    ensures Published(tx, init, s')
  {
    assert HoldsWrite(s.pc[t]) <==> s.writer == Some(t);
    match s.pc[t]
    case UBody(x) => OneMoreRan(tx, init, s.ran, x);
    case URevision(x) => assert Pending(s) == [x] && Pending(s') == [];
    case _ => assert Pending(s') == Pending(s);
  }

  /** With nothing pending, the transactions that raised the revision account for the data. */
  lemma LogSuffices<D(!new), T(!new)>(tx: Txns<D, T>, init: D, s: State<D, T>)
    requires Faithful(tx) && Published(tx, init, s)
    ensures Replay(tx, init, s.log + Pending(s)) == s.data && AllCount(tx, init, s.log + Pending(s))
    ensures Pending(s) == [] ==> Replay(tx, init, s.log) == s.data
  {
    CountingSuffice(tx, init, s.ran);
    assert s.log + [] == s.log;
  }

  lemma WatchersKept<D(!new), T(!new)>(tx: Txns<D, T>, init: D, s: State<D, T>, s': State<D, T>, t: Tid)
    requires Faithful(tx) && Locks(s) && Published(tx, init, s) && StepOk(tx, s, s', t)
    requires forall u :: u in s.pc ==> WatcherOk(tx, init, s, s.pc[u])
    ensures forall u :: u in s'.pc ==> WatcherOk(tx, init, s', s'.pc[u])
  {
    LogSuffices(tx, init, s);
    forall u | u in s'.pc ensures WatcherOk(tx, init, s', s'.pc[u]) {
      assert WatcherOk(tx, init, s, s.pc[u]);
      assert HoldsRead(s.pc[u]) <==> u in s.readers;
      assert HoldsWrite(s.pc[t]) <==> s.writer == Some(t);
    }
  }

  /** At most one View returns in a step, and the log only grows. */
  ghost predicate Returned<D, T>(s: State<D, T>, s': State<D, T>, t: Tid)
    requires t in s.pc
  {
    && s.log <= s'.log
    && (if s.pc[t].VClosed? && s.closed then s'.outcomes == s.outcomes + [Outcome(s.pc[t].after, 0, true, None)] && s'.log == s.log
        else if s.pc[t].VReturn? then
          s'.outcomes == s.outcomes + [Outcome(s.pc[t].after, s.rev, s.closed, Some(s.pc[t].seen))] && s'.log == s.log
        else s'.outcomes == s.outcomes)
  }

  lemma StepReturns<D(!new), T(!new)>(tx: Txns<D, T>, s: State<D, T>, t: Tid, call: Call<T>)
    requires Enabled(s, t)
    ensures Returned(s, Step(tx, s, t, call), t)
  {
  }

  lemma OldOutcomeOk<D(!new), T(!new)>(tx: Txns<D, T>, init: D, s: State<D, T>, s': State<D, T>, o: Outcome<D>)
    requires OutcomeOk(tx, init, s, o) && s.log <= s'.log
    ensures OutcomeOk(tx, init, s', o)
  {
    assert o.seen.Some? ==> s'.log[..o.rev] == s.log[..o.rev];
  }

  lemma NewOutcomeOk<D(!new), T(!new)>(tx: Txns<D, T>, init: D, s: State<D, T>, s': State<D, T>, t: Tid)
    requires t in s.pc && s.pc[t].VReturn? && WatcherOk(tx, init, s, s.pc[t]) && s'.log == s.log && |s.log| == s.rev
    ensures OutcomeOk(tx, init, s', Outcome(s.pc[t].after, s.rev, s.closed, Some(s.pc[t].seen)))
  {
    assert s.log[..|s.log|] == s.log;
  }

  lemma OutcomesKept<D(!new), T(!new)>(tx: Txns<D, T>, init: D, s: State<D, T>, s': State<D, T>, t: Tid)
    requires t in s.pc && WatcherOk(tx, init, s, s.pc[t]) && |s.log| == s.rev && Returned(s, s', t)
    requires forall o :: o in s.outcomes ==> OutcomeOk(tx, init, s, o)
    ensures forall o :: o in s'.outcomes ==> OutcomeOk(tx, init, s', o)
  {
    forall o | o in s'.outcomes ensures OutcomeOk(tx, init, s', o) {
      if o in s.outcomes {
        OldOutcomeOk(tx, init, s, s', o);
      } else if s.pc[t].VReturn? {
        NewOutcomeOk(tx, init, s, s', t);
      }
    }
  }

  /** Every interleaving keeps the invariant. */
  lemma {:induction false} EveryRunKeepsInv<D(!new), T(!new)>(tx: Txns<D, T>, s: State<D, T>, moves: seq<Move<T>>)
    requires Faithful(tx) && Initial(s)
    ensures Inv(tx, s.data, Exec(tx, s, moves))
  {
    if moves != [] {
      EveryRunKeepsInv(tx, s, moves[..|moves| - 1]);
      var before, m := Exec(tx, s, moves[..|moves| - 1]), moves[|moves| - 1];
      if Enabled(before, m.t) {
        var after := Step(tx, before, m.t, m.call);
        EveryStepOk(tx, before, m.t, m.call);
        LocksKept(before, after, m.t);
        SleepersKept(before, after, m.t);
        PublishedKept(tx, s.data, before, after, m.t);
        WatchersKept(tx, s.data, before, after, m.t);
        StepReturns(tx, before, m.t, m.call);
        OutcomesKept(tx, s.data, before, after, m.t);
      }
    }
  }

  // What the invariant means

  /** No lost wakeup: unless a thread is just about to wake the watchers, one that sleeps has nothing to see;
      in particular while nobody holds the mutex. */
  lemma NoLostWakeup<D(!new), T(!new)>(tx: Txns<D, T>, s: State<D, T>, moves: seq<Move<T>>, t: Tid)
    requires Faithful(tx) && Initial(s)
    requires var e := Exec(tx, s, moves); t in e.pc && e.pc[t].VAsleep? && !AboutToWake(e)
    ensures var e := Exec(tx, s, moves); e.rev <= e.pc[t].after && !e.closed
  {
    EveryRunKeepsInv(tx, s, moves);
    var e := Exec(tx, s, moves);
    assert SleeperOk(e, e.pc[t]);
  }

  /** Every View returns closed, or a later revision together with exactly the data
      that the transactions up to that revision produce. */
  lemma ViewsAreSerial<D(!new), T(!new)>(tx: Txns<D, T>, s: State<D, T>, moves: seq<Move<T>>, o: Outcome<D>)
    requires Faithful(tx) && Initial(s) && o in Exec(tx, s, moves).outcomes
    ensures o.seen.None? ==> o.closed
    ensures o.seen.Some? ==> var log := Exec(tx, s, moves).log;
              o.after < o.rev <= |log| && o.seen.value == Replay(tx, s.data, log[..o.rev])
  {
    EveryRunKeepsInv(tx, s, moves);
    assert OutcomeOk(tx, s.data, Exec(tx, s, moves), o);
  }

  /** Two Views that return the same revision saw the same tree and sync flags. */
  lemma SameRevisionSameData<D(!new), T(!new)>(tx: Txns<D, T>, s: State<D, T>, moves: seq<Move<T>>, o: Outcome<D>, p: Outcome<D>)
    requires Faithful(tx) && Initial(s) && o in Exec(tx, s, moves).outcomes && p in Exec(tx, s, moves).outcomes
    requires o.seen.Some? && p.seen.Some? && o.rev == p.rev
    ensures o.seen == p.seen
  {
    ViewsAreSerial(tx, s, moves, o);
    ViewsAreSerial(tx, s, moves, p);
  }

  /** The revision rises by exactly one for each transaction that counts a change on the data it meets, and never
      otherwise: it is the number of those among all that ran, less the one that is just being published. Those that
      raised it account for all of the data, and each of them counts a change where it stands among them. */
  lemma RevisionCountsChanges<D(!new), T(!new)>(tx: Txns<D, T>, s: State<D, T>, moves: seq<Move<T>>)
    requires Faithful(tx) && Initial(s)
    ensures var e := Exec(tx, s, moves);
            && e.data == Replay(tx, s.data, e.ran)
            && e.rev == |Counting(tx, s.data, e.ran)| - |Pending(e)|
            && e.log == Counting(tx, s.data, e.ran)[..e.rev]
            && AllCount(tx, s.data, e.log)
            && (e.writer.None? ==> Pending(e) == [] && e.data == Replay(tx, s.data, e.log))
  {
    EveryRunKeepsInv(tx, s, moves);
    var e := Exec(tx, s, moves);
    LogSuffices(tx, s.data, e);
    assert (e.log + Pending(e))[..e.rev] == e.log;
    forall i | 0 <= i < |e.log| ensures tx.counts(Replay(tx, s.data, e.log[..i]), e.log[i]) {
      assert (e.log + Pending(e))[..i] == e.log[..i] && (e.log + Pending(e))[i] == e.log[i];
    }
  }

  // Close

  ghost predicate ClosersOk<D, T>(s: State<D, T>) {
    forall t :: t in s.pc && (s.pc[t].CBroadcast? || s.pc[t].CMutexUnlock?) ==> s.closed
  }

  lemma StepCloses<D(!new), T(!new)>(tx: Txns<D, T>, s: State<D, T>, t: Tid, call: Call<T>)
    requires ClosersOk(s) && Enabled(s, t)
    ensures ClosersOk(Step(tx, s, t, call)) && (s.closed ==> Step(tx, s, t, call).closed)
  {
  }

  lemma {:induction false} EveryRunCloses<D(!new), T(!new)>(tx: Txns<D, T>, s: State<D, T>, moves: seq<Move<T>>)
    requires Initial(s)
    ensures ClosersOk(Exec(tx, s, moves))
  {
    if moves != [] {
      EveryRunCloses(tx, s, moves[..|moves| - 1]);
      var before, m := Exec(tx, s, moves[..|moves| - 1]), moves[|moves| - 1];
      if Enabled(before, m.t) { StepCloses(tx, before, m.t, m.call); }
    }
  }

  lemma {:induction false} ClosedStays<D(!new), T(!new)>(tx: Txns<D, T>, s: State<D, T>, moves: seq<Move<T>>, more: seq<Move<T>>)
    requires Initial(s) && Exec(tx, s, moves).closed
    ensures Exec(tx, s, moves + more).closed
  {
    if more == [] {
      assert moves + more == moves;
    } else {
      var m, run := more[|more| - 1], moves + more[..|more| - 1];
      ClosedStays(tx, s, moves, more[..|more| - 1]);
      EveryRunCloses(tx, s, run);
      assert moves + more == run + [m] && (run + [m])[..|run|] == run;
      if Enabled(Exec(tx, s, run), m.t) { StepCloses(tx, Exec(tx, s, run), m.t, m.call); }
    }
  }

  /** Once a Close is about to return, the store is closed for good: whatever happens later, no watcher sleeps
      unless a thread is just about to wake it. */
  lemma CloseIsFinal<D(!new), T(!new)>(tx: Txns<D, T>, s: State<D, T>, moves: seq<Move<T>>, t: Tid, more: seq<Move<T>>)
    requires Faithful(tx) && Initial(s)
    requires var e := Exec(tx, s, moves); t in e.pc && e.pc[t].CMutexUnlock?
    ensures var e := Exec(tx, s, moves + more);
            e.closed && (!AboutToWake(e) ==> forall u :: u in e.pc ==> !e.pc[u].VAsleep?)
  {
    EveryRunCloses(tx, s, moves);
    ClosedStays(tx, s, moves, more);
    EveryRunKeepsInv(tx, s, moves + more);
    var e := Exec(tx, s, moves + more);
    forall u | u in e.pc && !AboutToWake(e) ensures !e.pc[u].VAsleep? { assert SleeperOk(e, e.pc[u]); }
  }

  predicate Waiting<D, T>(pc: Pc<D, T>) {
    !pc.Idle? && !pc.VAsleep?
  }

  /** No deadlock: whenever a call is under way, other than a watcher asleep with
      nothing to see, some thread in a call can take a step. */
  lemma NoDeadlock<D(!new), T(!new)>(tx: Txns<D, T>, s: State<D, T>, moves: seq<Move<T>>, t: Tid)
    requires Faithful(tx) && Initial(s)
    requires var e := Exec(tx, s, moves); t in e.pc && (Waiting(e.pc[t]) || (e.pc[t].VAsleep? && (e.rev > e.pc[t].after || e.closed)))
    ensures var e := Exec(tx, s, moves); exists u :: u in e.pc && Waiting(e.pc[u]) && Enabled(e, u)
  {
    EveryRunKeepsInv(tx, s, moves);
    var e := Exec(tx, s, moves);
    assert SleeperOk(e, e.pc[t]);
    if e.mutex.Some? {
      assert Enabled(e, e.mutex.value);
    } else if e.writer.Some? {
      assert Enabled(e, e.writer.value);
    } else if u :| u in e.readers {
      assert Enabled(e, u);
    } else {
      assert Enabled(e, t);
    }
  }
}
