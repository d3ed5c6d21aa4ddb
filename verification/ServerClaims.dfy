/** What clients of the server can rely on, in every interleaving and for every outcome of the
    outside operations. */
module ServerClaims {
  import opened Base
  import opened Proto
  import opened Broadcast
  import opened Controller
  import opened Server

  // --- refinement to a sequential controller ---

  /** Every reply a connection has written or is about to write is the one that running the served
      commands one at a time, in lock order, gives to its command; replies of one connection come
      in lock order; and none of them says `Connecting`. */
  lemma {:induction false} RepliesAreSequential(start: State, steps: seq<Step>, id: nat, k: nat)
    requires Start(start) && Allowed(start, steps)
    requires id in Run(start, steps).conns
    requires var wire := Pending(Run(start, steps).conns[id]); k < |wire| && wire[k].Reply?
    ensures var s := Run(start, steps);
            var wire := Pending(s.conns[id]);
            var w := wire[k];
            |s.clients| == |s.history| &&
            if w.cmd.Ping? then w.reply == Pong
            else
              && w.turn < |s.history| && s.clients[w.turn] == id && s.history[w.turn].cmd == w.cmd
              && w.reply == StatusEvent(ReplyAt(start.ctl, s.history, w.turn))
              && !ReplyAt(start.ctl, s.history, w.turn).state.Connecting?
              && (forall j | 0 <= j < k && InTurn(wire[j]) :: wire[j].turn < w.turn)
  {
    hide Serve;
    hide After;
    RunsAreGood(start, steps);
    var s := Run(start, steps);
    var w := Pending(s.conns[id])[k];
    if !w.cmd.Ping? {
      var t := s.history[w.turn];
      assert t in s.history;
      RunsKeepFree(start.ctl, s.history[..w.turn]);
      ServeKeeps(After(start.ctl, s.history[..w.turn]), t.cmd, t.env);
    }
  }

  /** Whenever the lock is free, the controller is exactly that of the served commands, and
      Connected, holding a proxy and having a record agree. */
  lemma FreeLockIsSequential(start: State, steps: seq<Step>)
    requires Start(start) && Allowed(start, steps) && Run(start, steps).holder.None?
    ensures var s := Run(start, steps);
            s.ctl == After(start.ctl, s.history) && Free(s.ctl)
  {
    RunsAreGood(start, steps);
    RunsKeepFree(start.ctl, Run(start, steps).history);
  }

  /** The clients served so far, the one being served, and those waiting, in lock order. */
  function ServiceOrder(s: State): seq<nat> {
    s.clients + (if s.holder.Some? then [s.holder.value] else []) + s.queue
  }

  /** Who asked for the lock in a run, in the order of asking. */
  function Arrivals(steps: seq<Step>): seq<nat> {
    if steps == [] then []
    else
      Arrivals(steps[..|steps| - 1])
      + match Last(steps)
        case Receive(id, cmd, _) => if cmd.Ping? then [] else [id]
        case Shutdown(id, _) => [id]
        case _ => []
  }

  lemma OrderOneMore(s: State, l: Step)
    requires Enabled(s, l)
    ensures ServiceOrder(Next(s, l)) == ServiceOrder(s) + Arrivals([l])
  {
    hide Advance;
    hide Received;
    hide Pending;
    assert Arrivals([l][..0]) == [];
    match l
    case Grant => assert s.queue == [s.queue[0]] + s.queue[1..];
    case _ =>
  }

  /** Commands are served in the order in which they were received, in every interleaving: lock
      order is arrival order. */
  lemma {:induction false} ServedInArrivalOrder(start: State, steps: seq<Step>)
    requires Start(start) && Allowed(start, steps)
    ensures ServiceOrder(Run(start, steps)) == Arrivals(steps)
    ensures Run(start, steps).clients <= Arrivals(steps)
  {
    hide Next;
    hide Enabled;
    if steps != [] {
      var before := steps[..|steps| - 1];
      ServedInArrivalOrder(start, before);
      OrderOneMore(Run(start, before), Last(steps));
      assert Arrivals([Last(steps)][..0]) == [];
    }
  }

  // --- what holds at every moment, also while the lock is held ---

  lemma PointInv(start: State, steps: seq<Step>) returns (p: Point)
    requires Start(start) && Allowed(start, steps)
    ensures p.ctl == Run(start, steps).ctl && Inv(p)
  {
    RunsAreGood(start, steps);
    var s := Run(start, steps);
    if s.holder.None? {
      RunsKeepFree(start.ctl, s.history);
      p := Point(s.ctl, Reading);
    } else {
      p := Point(s.ctl, HolderPhase(s).pc);
    }
  }

  /** At every moment of every run the broadcast trace follows the grammar, the status is the last
      one broadcast, and no redirect points at a dead proxy unless a restore failed or an apply
      stopped half way. */
  lemma EveryMoment(start: State, steps: seq<Step>)
    requires Start(start) && Allowed(start, steps)
    ensures var c := Run(start, steps).ctl;
            Grammar(c.log) && Current(c) && (!c.dirty ==> NoDeadRedirect(c))
  {
    var p := PointInv(start, steps);
    if !p.ctl.dirty {
      NoDeadRedirectAt(p);
    }
  }

  // --- subscriptions ---

  /** The statuses a subscription has delivered: its snapshot, then the forwarded entries. */
  ghost function Delivered(log: seq<Status>, sub: Subscription): seq<Status>
    requires Faithful(sub.receiver, |log|)
  {
    [sub.snapshot] + seq(|sub.receiver.seen|, i requires 0 <= i < |sub.receiver.seen| => log[sub.receiver.seen[i]])
  }

  /** A subscription delivers the status at the moment of subscribing and then, in order and
      without duplicates, some of those set afterwards; and once its receiver is drained the last
      delivered status is the controller's, whatever the 16-slot channel has dropped. */
  lemma {:induction false} SubscriberConverges(start: State, steps: seq<Step>, id: nat)
    requires Start(start) && Allowed(start, steps)
    requires id in Run(start, steps).conns && Run(start, steps).conns[id].sub.Some?
    ensures var s := Run(start, steps);
            var sub := s.conns[id].sub.value;
            var r := sub.receiver;
            && Faithful(r, |s.ctl.log|)
            && sub.snapshot == StatusAt(s.ctl.log, r.start)
            && (forall i | 0 <= i < |r.seen| :: r.start <= r.seen[i] < |s.ctl.log|)
            && (forall i, j | 0 <= i < j < |r.seen| :: r.seen[i] < r.seen[j])
            && (Drained(r, |s.ctl.log|) ==> Last(Delivered(s.ctl.log, sub)) == s.ctl.status)
  {
    hide Run;
    hide Allowed;
    RunsAreGood(start, steps);
    var s := Run(start, steps);
    var p := PointInv(start, steps);
    assert SubOk(s.ctl.log, s.conns[id]);
  }

  /** How many entries the forwards of connection `id` have skipped since it last subscribed. */
  ghost function Skipped(start: State, steps: seq<Step>, id: nat): nat
    decreases |steps|
  {
    if steps == [] then 0
    else
      var before := steps[..|steps| - 1];
      var s, n := Run(start, before), Skipped(start, before, id);
      match Last(steps)
      case Accept(other) => if other == id then 0 else n
      case Close(other) => if other == id then 0 else n
      case Shutdown(other, _) => if other == id then 0 else n
      case Release => if s.holder == Some(id) && HolderWorks(s) && HolderPhase(s).cmd.Subscribe? then 0 else n
      case Forward(other) =>
        if other == id && Enabled(s, Last(steps)) then n + Lost(s.conns[id].sub.value.receiver, |s.ctl.log|) else n
      case _ => n
  }

  ghost predicate SubAccounted(s: State, id: nat, n: nat) {
    id in s.conns && s.conns[id].sub.Some? ==> Accounted(s.conns[id].sub.value.receiver, n)
  }

  /** Conservation, over every run: each entry broadcast since the subscription and before the cursor
      has been forwarded or was skipped. */
  lemma {:induction false} ForwardedOrSkipped(start: State, steps: seq<Step>, id: nat)
    requires Start(start) && Allowed(start, steps)
    ensures SubAccounted(Run(start, steps), id, Skipped(start, steps, id))
    decreases |steps|
  {
    hide Next;
    hide Enabled;
    if steps != [] {
      var before := steps[..|steps| - 1];
      ForwardedOrSkipped(start, before, id);
      StepAccounted(start, steps, id);
    }
  }

  lemma {:induction false} StepAccounted(start: State, steps: seq<Step>, id: nat)
    requires Allowed(start, steps) && steps != []
    requires var before := steps[..|steps| - 1]; SubAccounted(Run(start, before), id, Skipped(start, before, id))
    ensures SubAccounted(Run(start, steps), id, Skipped(start, steps, id))
  {
    hide Advance;
    hide Received;
    hide Accounted;
    hide Pending;
    var before := steps[..|steps| - 1];
    var s, n := Run(start, before), Skipped(start, before, id);
    match Last(steps)
    case Release => SubscribedAccounted(|s.ctl.log|);
    case Forward(other) =>
      if other == id {
        ReceivedAccounted(s.conns[id].sub.value.receiver, |s.ctl.log|, n);
      }
    case _ =>
  }

  lemma SubscribedAccounted(length: nat)
    ensures Accounted(Subscribed(length), 0)
  {
  }

  /** A subscription delivers, after its snapshot, every status broadcast up to its cursor exactly when
      none of its forwards skipped an entry. */
  lemma {:induction false} LosslessExactly(start: State, steps: seq<Step>, id: nat)
    requires Start(start) && Allowed(start, steps)
    requires id in Run(start, steps).conns && Run(start, steps).conns[id].sub.Some?
    ensures var s := Run(start, steps);
            var sub := s.conns[id].sub.value;
            var r := sub.receiver;
            && Faithful(r, |s.ctl.log|)
            && (Delivered(s.ctl.log, sub) == [sub.snapshot] + s.ctl.log[r.start..r.cursor] <==>
                  Skipped(start, steps, id) == 0)
  {
    hide Run;
    hide Allowed;
    hide Skipped;
    SubscriberConverges(start, steps, id);
    ForwardedOrSkipped(start, steps, id);
    var s := Run(start, steps);
    var r := s.conns[id].sub.value.receiver;
    if Skipped(start, steps, id) == 0 {
      assert forall i | 0 <= i < |r.seen| :: s.ctl.log[r.seen[i]] == s.ctl.log[r.start..r.cursor][i];
    }
  }

  /** From every reachable state, a listening subscriber can be drained by at most 17 forwards and
      then has the controller's status; they deliver exactly the newest 16 of what it had not
      seen. */
  lemma {:induction false} SubscriberCatchesUp(start: State, steps: seq<Step>, id: nat) returns (n: nat)
    requires Start(start) && Allowed(start, steps)
    requires var s := Run(start, steps);
             id in s.conns && s.conns[id].sub.Some? && s.conns[id].phase.Listening?
    ensures n <= 17 && Allowed(start, steps + Forwards(id, n))
    ensures var s := Run(start, steps);
            var t := Run(start, steps + Forwards(id, n));
            var length, cursor := |s.ctl.log|, s.conns[id].sub.value.receiver.cursor;
            var low := if length - cursor <= 16 then cursor else length - 16;
            && ForwardedTo(s, t, id, length)
            && low <= length && Stream(t.conns[id].wire) == Stream(s.conns[id].wire) + Range(low, length)
            && Faithful(t.conns[id].sub.value.receiver, |t.ctl.log|)
            && Last(Delivered(t.ctl.log, t.conns[id].sub.value)) == t.ctl.status
  {
    hide Run;
    hide Allowed;
    hide Delivered;
    var s := Run(start, steps);
    SubscriberConverges(start, steps, id);
    n := ForwardsDrain(s, id);
    RunOn(start, steps, Forwards(id, n));
    SubscriberConverges(start, steps + Forwards(id, n), id);
  }

  /** The events on the wire of a subscribed connection since its last Subscribe reply are that
      reply, carrying the snapshot, and one event for each delivered entry. */
  lemma {:induction false} WireCarriesSubscription(start: State, steps: seq<Step>, id: nat)
    requires Start(start) && Allowed(start, steps)
    requires id in Run(start, steps).conns && Run(start, steps).conns[id].sub.Some?
    ensures var c := Run(start, steps).conns[id];
            && Snapshot(Pending(c)) == Some(StatusEvent(c.sub.value.snapshot))
            && Stream(Pending(c)) == c.sub.value.receiver.seen
  {
    hide Run;
    hide Allowed;
    RunsAreGood(start, steps);
    assert SubOk(Run(start, steps).ctl.log, Run(start, steps).conns[id]);
  }

  /** The events behind the entries on the wire. */
  function Events(log: seq<Status>, wire: seq<Wire>): (es: seq<Event>)
    requires forall k | 0 <= k < |wire| && wire[k].Update? :: wire[k].entry < |log|
    ensures |es| == |wire|
  {
    seq(|wire|, k requires 0 <= k < |wire| =>
      match wire[k] case Reply(_, reply, _) => reply case Update(entry) => StatusEvent(log[entry]))
  }

  /** Only a Subscribe was ever sent on the connection, as `Subscription::open` does. */
  ghost predicate OnlySubscribed(wire: seq<Wire>) {
    wire != [] && wire[0].Reply? && wire[0].cmd.Subscribe? && forall k | 0 < k < |wire| :: wire[k].Update?
  }

  lemma {:induction false} OnlySubscribedStream(wire: seq<Wire>)
    requires OnlySubscribed(wire)
    ensures Snapshot(wire) == Some(wire[0].reply)
    ensures |Stream(wire)| == |wire| - 1 && forall k | 0 < k < |wire| :: Stream(wire)[k - 1] == wire[k].entry
  {
    if |wire| > 1 {
      OnlySubscribedStream(wire[..|wire| - 1]);
    }
  }

  /** What a subscription client finds on its connection is exactly what its subscription has
      delivered: the snapshot and the forwarded statuses, each as one event. */
  lemma {:induction false} ClientSeesSubscription(start: State, steps: seq<Step>, id: nat)
    requires Start(start) && Allowed(start, steps)
    requires id in Run(start, steps).conns && Run(start, steps).conns[id].sub.Some?
    requires OnlySubscribed(Pending(Run(start, steps).conns[id]))
    ensures var s := Run(start, steps);
            var c := s.conns[id];
            && Faithful(c.sub.value.receiver, |s.ctl.log|)
            && (forall k | 0 <= k < |Pending(c)| && Pending(c)[k].Update? :: Pending(c)[k].entry < |s.ctl.log|)
            && var seen := Delivered(s.ctl.log, c.sub.value);
               |Events(s.ctl.log, Pending(c))| == |seen|
               && forall k | 0 <= k < |seen| :: Events(s.ctl.log, Pending(c))[k] == StatusEvent(seen[k])
  {
    hide Run;
    hide Allowed;
    SubscriberConverges(start, steps, id);
    WireCarriesSubscription(start, steps, id);
    var wire := Pending(Run(start, steps).conns[id]);
    OnlySubscribedStream(wire);
    forall k | 0 <= k < |wire| && wire[k].Update? ensures wire[k].entry < |Run(start, steps).ctl.log| {
      assert Stream(wire)[k - 1] == wire[k].entry;
    }
  }

  // --- shutdown ---

  /** The step that ends a disconnect, such as the daemon's at shutdown, leaves everything torn
      down, in every interleaving and whatever failed. */
  lemma DisconnectReturnsTornDown(start: State, steps: seq<Step>)
    requires Start(start) && Allowed(start, steps)
    requires var s := Run(start, steps); Enabled(s, Release) && HolderPhase(s).cmd.Disconnect?
    ensures var c := Next(Run(start, steps), Release).ctl;
            c.status == DISCONNECTED && TornDown(c)
  {
    RunsAreGood(start, steps);
    var s := Run(start, steps);
    ShutdownTearsDown(start.ctl, s.history, HolderPhase(s).env);
  }

  /** While no connect is granted the lock after that, everything stays torn down, at every moment until
      the process is gone. */
  lemma {:induction false} StaysTornDown(start: State, steps: seq<Step>, more: seq<Step>)
    requires Start(start) && Allowed(start, steps)
    requires var s := Run(start, steps); Enabled(s, Release) && HolderPhase(s).cmd.Disconnect?
    requires var s := Next(Run(start, steps), Release); Allowed(s, more) && NoConnectGranted(s, more)
    ensures TornDown(Run(Next(Run(start, steps), Release), more).ctl)
  {
    DisconnectReturnsTornDown(start, steps);
    QuietRun(Next(Run(start, steps), Release), more);
  }

  ghost predicate NoConnectGranted(s: State, more: seq<Step>)
    decreases |more|
  {
    more == [] ||
    (&& NoConnectGranted(s, more[..|more| - 1])
     && var t := Run(s, more[..|more| - 1]);
        Last(more).Grant? && Enabled(t, Grant) ==> !t.conns[t.queue[0]].phase.cmd.Connect?)
  }

  /** Torn down, and no connect at work. */
  ghost predicate Quiet(s: State) {
    && TornDown(s.ctl)
    && (HolderWorks(s) ==> ApartFromConnect(HolderPhase(s).pc))
  }

  lemma {:induction false} QuietRun(s: State, more: seq<Step>)
    requires Quiet(s) && Allowed(s, more) && NoConnectGranted(s, more)
    ensures Quiet(Run(s, more))
    decreases |more|
  {
    hide Next;
    hide Enabled;
    hide Quiet;
    if more != [] {
      var before := more[..|more| - 1];
      QuietRun(s, before);
      QuietStep(Run(s, before), Last(more));
    }
  }

  lemma QuietStep(s: State, l: Step)
    requires Quiet(s) && Enabled(s, l) && (l.Grant? ==> !s.conns[s.queue[0]].phase.cmd.Connect?)
    ensures Quiet(Next(s, l))
  {
    hide Received;
    hide Pending;
    hide Advance;
    if l.Work? {
      AdvanceTornDown(Point(s.ctl, HolderPhase(s).pc), HolderPhase(s).env);
    }
  }

  /** What the daemon leaves when it exits with the lock free, `n` being the place in the lock order of
      the shutdown's disconnect: everything torn down exactly if no connect served after it was
      answered `Connected` without a later disconnect. */
  lemma ExitExactly(start: State, steps: seq<Step>, n: nat)
    requires Start(start) && Allowed(start, steps) && Run(start, steps).holder.None?
    requires var h := Run(start, steps).history; n < |h| && h[n].cmd.Disconnect?
    ensures var s := Run(start, steps); TornDown(s.ctl) <==> !InForce(start.ctl, s.history, n + 1)
  {
    RunsAreGood(start, steps);
    var h := Run(start, steps).history;
    assert h[..n + 1][..n] == h[..n] && Last(h[..n + 1]) == h[n];
    assert forall t | t in h[..n] :: t in h;
    ShutdownTearsDown(start.ctl, h[..n], h[n].env);
    InForceExactly(start.ctl, h, n + 1);
  }

  /** What it leaves when it exits while a command works: by the next operation of that command. */
  lemma ExitDuringWork(start: State, steps: seq<Step>)
    requires Start(start) && Allowed(start, steps) && HolderWorks(Run(start, steps))
    ensures var s := Run(start, steps);
            TornDown(s.ctl) <==>
            match HolderPhase(s).pc
            case Starting(_) => true
            case Failing(_) => true
            case FlushingAfter => true
            case Clearing => true
            case StoppingHeld => !s.ctl.held
            case Return(reply) => !reply.state.Connected?
            case Reading => !s.ctl.status.state.Connected?
            case Checking(_) => !s.ctl.status.state.Connected?
            case Restoring => !s.ctl.status.state.Connected?
            case _ => false
  {
    hide Run;
    hide Allowed;
    RunsAreGood(start, steps);
  }

  // --- progress ---

  /** The command of `id` has been received and its answer is not yet determined. */
  predicate Unanswered(s: State, id: nat) {
    id in s.conns && (s.conns[id].phase.Waiting? || s.conns[id].phase.Working?)
  }

  predicate IsLockStep(l: Step) {
    l.Grant? || l.Work? || l.Release?
  }

  /** Lock steps until the holder is done: its remaining operations and the release. */
  function HolderLeft(s: State): nat {
    if HolderWorks(s) then Rank(HolderPhase(s).pc) + 1 else 0
  }

  function Position(queue: seq<nat>, id: nat): (n: nat)
    ensures n <= |queue|
    ensures id in queue ==> n < |queue| && queue[n] == id
  {
    if queue == [] || queue[0] == id then 0 else 1 + Position(queue[1..], id)
  }

  /** At most this many lock steps until the command of `id` is answered: nine for each turn
      before it and for its own, and what the holder still needs. */
  function Bound(s: State, id: nat): nat {
    HolderLeft(s) + if s.holder == Some(id) then 0 else 9 * (Position(s.queue, id) + 1)
  }

  /** While some command is unanswered, the lock can move. */
  lemma NeverStuck(s: State, id: nat)
    requires LockInv(s) && Unanswered(s, id)
    ensures Enabled(s, Grant) || Enabled(s, Work) || Enabled(s, Release)
  {
    assert TaskOk(s.queue, s.holder, id, s.conns[id].phase);
    if s.holder.Some? {
      assert TaskOk(s.queue, s.holder, s.holder.value, s.conns[s.holder.value].phase);
    } else {
      assert s.queue[0] in s.queue;
      assert TaskOk(s.queue, s.holder, s.queue[0], s.conns[s.queue[0]].phase);
    }
  }

  lemma {:induction false} PositionKept(queue: seq<nat>, id: nat, last: nat)
    requires id in queue
    ensures Position(queue + [last], id) == Position(queue, id)
  {
    if queue[0] != id {
      assert (queue + [last])[1..] == queue[1..] + [last];
      PositionKept(queue[1..], id, last);
    }
  }

  /** A lock step brings an unanswered command nearer to its answer, and no other step takes it
      further away. */
  lemma StepsApproach(s: State, l: Step, id: nat)
    requires LockInv(s) && Enabled(s, l) && Unanswered(s, id) && Unanswered(Next(s, l), id)
    ensures if IsLockStep(l) then Bound(Next(s, l), id) < Bound(s, id) else Bound(Next(s, l), id) <= Bound(s, id)
  {
    hide Advance;
    hide Received;
    hide Pending;
    assert TaskOk(s.queue, s.holder, id, s.conns[id].phase);
    match l
    case Receive(other, cmd, env) =>
      if s.holder != Some(id) && !cmd.Ping? {
        PositionKept(s.queue, id, other);
      }
    case Shutdown(other, _) =>
      if s.holder != Some(id) {
        PositionKept(s.queue, id, other);
      }
    case Grant => assert s.conns[s.queue[0]].phase.Waiting?;
    case Work => AdvanceRanks(Point(s.ctl, HolderPhase(s).pc), HolderPhase(s).env);
    case _ =>
  }

  function LockSteps(steps: seq<Step>): nat {
    if steps == [] then 0
    else LockSteps(steps[..|steps| - 1]) + if IsLockStep(Last(steps)) then 1 else 0
  }

  ghost predicate StaysUnanswered(s: State, steps: seq<Step>, id: nat) {
    && Unanswered(Run(s, steps), id)
    && (steps != [] ==> StaysUnanswered(s, steps[..|steps| - 1], id))
  }

  /** Progress: from any reachable state, a run that keeps a command unanswered has at most `Bound`
      lock steps, and it can always go on with one; so with a scheduler that lets the lock move
      every command is answered. */
  lemma {:induction false} AnsweredWithinBound(s: State, steps: seq<Step>, id: nat)
    requires LockInv(s) && Allowed(s, steps) && StaysUnanswered(s, steps, id)
    ensures LockInv(Run(s, steps))
    ensures LockSteps(steps) + Bound(Run(s, steps), id) <= Bound(s, id)
    ensures exists l :: IsLockStep(l) && Enabled(Run(s, steps), l)
  {
    hide Next;
    hide Enabled;
    hide LockInv;
    hide Bound;
    hide Unanswered;
    if steps != [] {
      var before := steps[..|steps| - 1];
      AnsweredWithinBound(s, before, id);
      LockKept(Run(s, before), Last(steps));
      StayedBefore(s, steps, id);
      StepsApproach(Run(s, before), Last(steps), id);
    }
    NeverStuck(Run(s, steps), id);
  }

  lemma StayedBefore(s: State, steps: seq<Step>, id: nat)
    requires StaysUnanswered(s, steps, id) && steps != []
    ensures Unanswered(Run(s, steps[..|steps| - 1]), id)
  {
  }

  /** An answered command's reply can be written at once. */
  lemma AnswerCanBeWritten(s: State, id: nat)
    requires Enabled(s, Release) && s.holder == Some(id)
    ensures var t := Next(s, Release);
            && Enabled(t, Write(id))
            && Next(t, Write(id)).conns[id].wire ==
               s.conns[id].wire + [Reply(HolderPhase(s).cmd, StatusEvent(HolderPhase(s).pc.reply), |s.history|)]
  {
  }
}
