/** One connection of the IPC server, from bytes to commands and from events to bytes, and the
    client's end of a subscription. */
module Ipc {
  import opened Base
  import opened Proto
  import opened Framing
  import opened Broadcast
  import C = Controller

  // --- dispatch ---

  /** `dispatch` on the locked controller: the reply of the command, and a receiver created under
      the same lock as the snapshot for Subscribe. */
  method Dispatch(cmd: Command, controller: C.Controller, subscription: Option<Receiver>, env: C.Env)
    returns (reply: Event, after: Option<Receiver>)
    requires controller.Valid()
    modifies controller, controller.redirector.Objects()
    ensures controller.Valid()
    ensures cmd.Ping? ==> reply == Pong && controller.View() == old(controller.View())
    ensures !cmd.Ping? ==>
              var a := C.Serve(old(controller.View()), cmd, env);
              reply == StatusEvent(a.reply) && controller.View() == a.ctl
    ensures after == if cmd.Subscribe? then Some(Subscribed(|controller.tx|)) else subscription
  {
    after := subscription;
    match cmd {
      case Ping => reply := Pong;
      case GetStatus =>
        var s := controller.GetStatus();
        reply := StatusEvent(s);
      case Subscribe =>
        after := Some(Subscribed(|controller.tx|));
        var s := controller.GetStatus();
        reply := StatusEvent(s);
      case Connect(u) =>
        var s, _ := controller.Connect(u, env);
        reply := StatusEvent(s);
      case Disconnect =>
        var s, _ := controller.Disconnect(env);
        reply := StatusEvent(s);
    }
  }

  // --- the connection loop ---

  /** How messages become payloads. `dispatch` gives the reply to the `n`-th command. */
  datatype Codec = Codec(
    command: Bytes -> Option<Command>, event: Event -> Bytes, dispatch: (Command, nat) -> Event)

  /** What one round of `select!` finds first. `cut` is where the write it causes fails, if it does.
      An update that wins drops a half-finished read and with it the `lost` bytes that read had
      taken; its item is `None` when the receiver had lagged. */
  datatype Round =
    | Input(cut: Option<nat>)
    | Pushed(item: Option<Status>, lost: nat, cut: Option<nat>)

  /** How the loop ended: still open, closed by the peer, or with an error. */
  datatype Ending = Open | PeerClosed | Errored

  function Encoded(codec: Codec, events: seq<Event>): seq<Bytes> {
    if events == [] then [] else [codec.event(events[0])] + Encoded(codec, events[1..])
  }

  lemma {:induction false} EncodedAppend(codec: Codec, events: seq<Event>, e: Event)
    ensures Encoded(codec, events + [e]) == Encoded(codec, events) + [codec.event(e)]
  {
    if events != [] {
      assert (events + [e])[1..] == events[1..] + [e];
      EncodedAppend(codec, events[1..], e);
    }
  }

  /** `commands` are what the first frames of the stream decode to. */
  ghost predicate Decodes(codec: Codec, stream: Bytes, commands: seq<Command>) {
    var frames := ReadAll(stream).messages;
    |commands| <= |frames| && forall i | 0 <= i < |commands| :: codec.command(frames[i]) == Some(commands[i])
  }

  lemma DecodesOneMore(codec: Codec, stream: Bytes, commands: seq<Command>, payload: Bytes, cmd: Command)
    requires Decodes(codec, stream, commands)
    requires ReadFrame(After(stream, |commands|)).Message? && ReadFrame(After(stream, |commands|)).payload == payload
    requires codec.command(payload) == Some(cmd)
    ensures Decodes(codec, stream, commands + [cmd])
    ensures After(stream, |commands| + 1) == ReadFrame(After(stream, |commands|)).rest
  {
    var n := |commands|;
    ReadAllPrefix(stream, n);
    var frames := ReadAll(stream).messages;
    assert frames[n..] == ReadAll(After(stream, n)).messages;
    assert frames[n..][0] == payload == frames[n];
    AfterOneMore(stream, n);
  }

  lemma {:induction false} AfterOneMore(stream: Bytes, n: nat)
    requires ReadFrame(After(stream, n)).Message?
    ensures After(stream, n + 1) == ReadFrame(After(stream, n)).rest
    decreases n
  {
    if n > 0 {
      AfterOneMore(ReadFrame(stream).rest, n - 1);
    }
  }

  /** A connection after some rounds: how it stands, the bytes still to read, the commands read, the
      events sent, and the part of one more frame that a failing write got out. */
  datatype Talk = Talk(ending: Ending, coming: Bytes, commands: seq<Command>, sent: seq<Event>, part: Bytes)

  ghost function Wrote(codec: Codec, t: Talk, e: Event, cut: Option<nat>): Talk {
    if cut.None? then t.(sent := t.sent + [e]) else t.(ending := Errored, part := GetsOut(codec.event(e), cut))
  }

  /** One round of an open connection. */
  ghost function OneRound(codec: Codec, t: Talk, round: Round): Talk {
    match round
    case Input(cut) =>
      (match ReadFrame(t.coming)
       case End => t.(ending := PeerClosed, coming := [])
       case Broken => t.(ending := Errored, coming := [])
       case Message(payload, rest) =>
         var cmd := codec.command(payload);
         if cmd.None? then t.(ending := Errored, coming := rest)
         else
           Wrote(codec, t.(coming := rest, commands := t.commands + [cmd.value]),
                 codec.dispatch(cmd.value, |t.commands|), cut))
    case Pushed(item, lost, cut) =>
      if Subscribe !in t.commands then t
      else
        var dropped := t.(coming := if lost <= |t.coming| then t.coming[lost..] else []);
        if item.None? then dropped else Wrote(codec, dropped, StatusEvent(item.value), cut)
  }

  /** All rounds, until one ends the connection. */
  ghost function Talked(codec: Codec, stream: Bytes, rounds: seq<Round>): Talk
    decreases |rounds|
  {
    if rounds == [] then Talk(Open, stream, [], [], [])
    else
      var t := Talked(codec, stream, rounds[..|rounds| - 1]);
      if t.ending.Open? then OneRound(codec, t, Last(rounds)) else t
  }

  lemma TalkedOneMore(codec: Codec, stream: Bytes, rounds: seq<Round>, n: nat)
    requires n < |rounds| && Talked(codec, stream, rounds[..n]).ending.Open?
    ensures Talked(codec, stream, rounds[..n + 1]) == OneRound(codec, Talked(codec, stream, rounds[..n]), rounds[n])
  {
    assert rounds[..n + 1][..n] == rounds[..n];
  }

  /** An ended connection stays as it is. */
  lemma {:induction false} TalkedStays(codec: Codec, stream: Bytes, rounds: seq<Round>, n: nat)
    requires n <= |rounds| && !Talked(codec, stream, rounds[..n]).ending.Open?
    ensures Talked(codec, stream, rounds) == Talked(codec, stream, rounds[..n])
    decreases |rounds|
  {
    hide OneRound;
    if n < |rounds| {
      assert rounds[..|rounds| - 1][..n] == rounds[..n];
      TalkedStays(codec, stream, rounds[..|rounds| - 1], n);
    } else {
      assert rounds[..n] == rounds;
    }
  }

  // --- what a connection sends ---

  /** How many rounds read a command. */
  function Inputs(rounds: seq<Round>): (n: nat)
    ensures n <= |rounds|
    decreases |rounds|
  {
    if rounds == [] then 0 else Inputs(rounds[..|rounds| - 1]) + if Last(rounds).Input? then 1 else 0
  }

  /** The event due in a round before which `n` commands were read: the reply to the command it
      reads, or, after a Subscribe, the update that wins it, unless the receiver had lagged. */
  function DueIn(codec: Codec, round: Round, commands: seq<Command>, n: nat): (due: seq<Event>)
    requires n <= |commands| && (round.Input? ==> n < |commands|)
    ensures |due| <= 1
  {
    match round
    case Input(_) => [codec.dispatch(commands[n], n)]
    case Pushed(item, _, _) =>
      if item.Some? && Subscribe in commands[..n] then [StatusEvent(item.value)] else []
  }

  /** The events due in all rounds. */
  function Due(codec: Codec, rounds: seq<Round>, commands: seq<Command>): seq<Event>
    requires Inputs(rounds) <= |commands|
    decreases |rounds|
  {
    if rounds == [] then []
    else
      var before := rounds[..|rounds| - 1];
      Due(codec, before, commands) + DueIn(codec, Last(rounds), commands, Inputs(before))
  }

  /** What is due depends on the commands read so far only. */
  lemma {:induction false} DueSoFar(codec: Codec, rounds: seq<Round>, commands: seq<Command>, more: seq<Command>)
    requires Inputs(rounds) <= |commands| && commands <= more
    ensures Due(codec, rounds, more) == Due(codec, rounds, commands)
    decreases |rounds|
  {
    if rounds != [] {
      var before := rounds[..|rounds| - 1];
      DueSoFar(codec, before, commands, more);
      assert more[..Inputs(before)] == commands[..Inputs(before)];
    }
  }

  /** One round sends exactly what is due in it, or ends the connection; what a failing write got
      out is part of the event due. */
  lemma {:induction false} RoundSendsDue(codec: Codec, t: Talk, round: Round)
    requires t.ending.Open? && t.part == []
    ensures var end := OneRound(codec, t, round);
            var n := |t.commands| + if round.Input? then 1 else 0;
            && t.commands <= end.commands && |end.commands| <= n
            && (end.ending.Open? || end.part != [] ==> |end.commands| == n)
            && (end.ending.Open? ==>
                  && end.sent == t.sent + DueIn(codec, round, end.commands, |t.commands|) && end.part == [])
            && (!end.ending.Open? ==> end.sent == t.sent)
            && (end.part != [] ==>
                  && end.ending.Errored?
                  && exists e: Event :: DueIn(codec, round, end.commands, |t.commands|) == [e]
                                        && end.part <= Frame(codec.event(e)))
            && (end.ending.PeerClosed? ==> round.Input? && end.commands == t.commands)
  {
    var end := OneRound(codec, t, round);
    assert end.commands[..|t.commands|] == t.commands;
    assert t.sent + [] == t.sent;
    if end.part != [] {
      var e := DueIn(codec, round, end.commands, |t.commands|)[0];
      assert DueIn(codec, round, end.commands, |t.commands|) == [e] && end.part <= Frame(codec.event(e));
    }
  }

  /** An open connection has read one command in every reading round and sent exactly the events
      due, in order. */
  lemma {:induction false} SentAreDue(codec: Codec, stream: Bytes, rounds: seq<Round>)
    requires Talked(codec, stream, rounds).ending.Open?
    ensures var t := Talked(codec, stream, rounds);
            Inputs(rounds) == |t.commands| && t.sent == Due(codec, rounds, t.commands) && t.part == []
    decreases |rounds|
  {
    hide OneRound;
    hide DueIn;
    if rounds != [] {
      var before := rounds[..|rounds| - 1];
      var t := Talked(codec, stream, before);
      SentAreDue(codec, stream, before);
      RoundSendsDue(codec, t, Last(rounds));
      DueSoFar(codec, before, t.commands, Talked(codec, stream, rounds).commands);
    }
  }

  /** The rounds before the one that ended the connection. */
  ghost function Completed(codec: Codec, stream: Bytes, rounds: seq<Round>): (n: nat)
    ensures n <= |rounds| && Talked(codec, stream, rounds[..n]).ending.Open?
    ensures n < |rounds| ==> !Talked(codec, stream, rounds[..n + 1]).ending.Open?
    decreases |rounds|
  {
    hide OneRound;
    if Talked(codec, stream, rounds).ending.Open? then assert rounds[..|rounds|] == rounds; |rounds|
    else
      var n := Completed(codec, stream, rounds[..|rounds| - 1]);
      assert rounds[..|rounds| - 1][..n] == rounds[..n];
      assert n < |rounds| - 1 ==> rounds[..|rounds| - 1][..n + 1] == rounds[..n + 1];
      assert n == |rounds| - 1 ==> rounds[..n + 1] == rounds;
      n
  }

  /** However a connection ended, it has sent exactly the events due in its completed rounds, in
      order; part of a frame is written only if the next event due could not be. */
  lemma {:induction false} EventsInOrder(codec: Codec, stream: Bytes, rounds: seq<Round>)
    ensures var t := Talked(codec, stream, rounds);
            var n := Completed(codec, stream, rounds);
            && (t.ending.Open? <==> n == |rounds|)
            && Inputs(rounds[..n]) <= |t.commands| <= Inputs(rounds[..n]) + 1
            && (t.ending.Open? || t.ending.PeerClosed? ==> |t.commands| == Inputs(rounds[..n]))
            && t.sent == Due(codec, rounds[..n], t.commands)
            && (t.part != [] ==>
                  t.ending.Errored? && n < |rounds| && CutShort(codec, rounds, n, t.commands, t.sent, t.part))
  {
    hide OneRound;
    hide Due;
    hide Talked;
    hide Inputs;
    hide CutShort;
    var n := Completed(codec, stream, rounds);
    SentAreDue(codec, stream, rounds[..n]);
    if n < |rounds| {
      TalkedStays(codec, stream, rounds, n + 1);
      EndsHere(codec, stream, rounds, n);
    } else {
      assert rounds[..n] == rounds;
    }
  }

  /** The event due in round `n` was cut: what is written of it is the beginning of its frame. */
  ghost predicate CutShort(
      codec: Codec, rounds: seq<Round>, n: nat, commands: seq<Command>, sent: seq<Event>, part: Bytes)
    requires n < |rounds|
  {
    && Inputs(rounds[..n + 1]) == |commands|
    && exists e: Event :: Due(codec, rounds[..n + 1], commands) == sent + [e] && part <= Frame(codec.event(e))
  }

  /** The round that ends a connection. */
  lemma {:induction false} EndsHere(codec: Codec, stream: Bytes, rounds: seq<Round>, n: nat)
    requires n < |rounds| && Talked(codec, stream, rounds[..n]).ending.Open?
    requires !Talked(codec, stream, rounds[..n + 1]).ending.Open?
    ensures var t := Talked(codec, stream, rounds[..n + 1]);
            && Inputs(rounds[..n]) <= |t.commands| <= Inputs(rounds[..n]) + 1
            && (t.ending.Open? || t.ending.PeerClosed? ==> |t.commands| == Inputs(rounds[..n]))
            && t.sent == Due(codec, rounds[..n], t.commands)
            && (t.part != [] ==> t.ending.Errored? && CutShort(codec, rounds, n, t.commands, t.sent, t.part))
  {
    hide OneRound;
    hide DueIn;
    hide Talked;
    var before, t := Talked(codec, stream, rounds[..n]), Talked(codec, stream, rounds[..n + 1]);
    SentAreDue(codec, stream, rounds[..n]);
    TalkedOneMore(codec, stream, rounds, n);
    RoundSendsDue(codec, before, rounds[n]);
    DueSoFar(codec, rounds[..n], before.commands, t.commands);
    assert rounds[..n + 1][..n] == rounds[..n] && Last(rounds[..n + 1]) == rounds[n];
    if t.part != [] {
      var e: Event :| DueIn(codec, rounds[n], t.commands, |before.commands|) == [e]
                      && t.part <= Frame(codec.event(e));
      assert Due(codec, rounds[..n + 1], t.commands) == t.sent + [e];
    }
  }

  /** Without a Subscribe only replies are due: one for each command, in order. */
  lemma {:induction false} OnlyRepliesDue(codec: Codec, rounds: seq<Round>, commands: seq<Command>)
    requires Inputs(rounds) <= |commands| && Subscribe !in commands
    ensures var due := Due(codec, rounds, commands);
            |due| == Inputs(rounds) && forall i | 0 <= i < |due| :: due[i] == codec.dispatch(commands[i], i)
    decreases |rounds|
  {
    if rounds != [] {
      OnlyRepliesDue(codec, rounds[..|rounds| - 1], commands);
    }
  }

  // --- what a connection reads ---

  /** No update dropped a read that had taken bytes. */
  ghost predicate NothingLost(rounds: seq<Round>) {
    forall r | r in rounds && r.Pushed? :: r.lost == 0
  }

  /** A connection that never subscribed, or lost no bytes to its updates, has read exactly the
      commands of the first frames of its stream and is right behind them; and the peer closed it
      exactly behind the last whole frame. */
  lemma {:induction false} ReadsItsFrames(codec: Codec, stream: Bytes, rounds: seq<Round>)
    requires Subscribe !in Talked(codec, stream, rounds).commands || NothingLost(rounds)
    ensures var t := Talked(codec, stream, rounds);
            && Decodes(codec, stream, t.commands)
            && (t.ending.Open? ==> t.coming == After(stream, |t.commands|))
            && (t.ending.PeerClosed? ==>
                  |t.commands| == |ReadAll(stream).messages| && !ReadAll(stream).broken)
    decreases |rounds|
  {
    hide ReadAll;
    if rounds == [] {
      assert Decodes(codec, stream, []);
    } else {
      var before, round := rounds[..|rounds| - 1], Last(rounds);
      var t := Talked(codec, stream, before);
      assert t.ending.Open? && round.Pushed? ==> round in rounds;
      ReadsItsFrames(codec, stream, before);
      if t.ending.Open? && round.Input? {
        InputReads(codec, stream, t, round);
      } else if t.ending.Open? {
        assert t.coming[0..] == t.coming;
      }
    }
  }

  /** One reading round. */
  lemma {:induction false} InputReads(codec: Codec, stream: Bytes, t: Talk, round: Round)
    requires round.Input? && t.ending.Open? && Decodes(codec, stream, t.commands)
    requires t.coming == After(stream, |t.commands|)
    ensures var end := OneRound(codec, t, round);
            && Decodes(codec, stream, end.commands)
            && (end.ending.Open? ==> end.coming == After(stream, |end.commands|))
            && (end.ending.PeerClosed? ==>
                  |end.commands| == |ReadAll(stream).messages| && !ReadAll(stream).broken)
  {
    hide ReadAll;
    var r := ReadFrame(t.coming);
    if r.Message? && codec.command(r.payload).Some? {
      DecodesOneMore(codec, stream, t.commands, r.payload, codec.command(r.payload).value);
    } else if !r.Message? {
      ReadAllStops(codec, stream, t.coming, t.commands);
    }
  }

  /** Bytes lost to an update are fatal: a subscribed connection that has whole frames coming reads
      them all after the update exactly if none of their bytes had been taken. */
  lemma LostBytesBreakConnection(
      codec: Codec, stream: Bytes, rounds: seq<Round>, payloads: seq<Bytes>, item: Option<Status>, lost: nat)
    requires Talked(codec, stream, rounds).ending.Open? && Subscribe in Talked(codec, stream, rounds).commands
    requires Talked(codec, stream, rounds).coming == Frames(payloads) && Sendable(payloads)
    requires lost <= |Frames(payloads)|
    ensures ReadAll(Talked(codec, stream, rounds + [Pushed(item, lost, None)]).coming).messages == payloads <==>
            lost == 0
  {
    hide ReadAll;
    var more := rounds + [Pushed(item, lost, None)];
    assert more[..|rounds|] == rounds && more[..|rounds| + 1] == more;
    TalkedOneMore(codec, stream, more, |rounds|);
    LostBytesBreakFraming(payloads, lost);
  }

  // --- the loop ---

  /** `handle_conn`. Everything about a connection, ending, bytes left, commands, events and partial
      frame, is that of `Talked`; what is written is the whole frames of the events sent, which are
      those due in the completed rounds, and that part. */
  method HandleConn(input: ByteSource, output: ByteSink, codec: Codec, rounds: seq<Round>)
    returns (ending: Ending, ghost commands: seq<Command>, ghost sent: seq<Event>, ghost part: Bytes)
    requires input.Valid() && output.written == []
    modifies input, output
    ensures input.Valid()
    ensures Talk(ending, input.Coming(), commands, sent, part) == Talked(codec, old(input.Coming()), rounds)
    ensures output.written == Frames(Encoded(codec, sent)) + part
    ensures var n := Completed(codec, old(input.Coming()), rounds);
            && (ending.Open? <==> n == |rounds|)
            && Inputs(rounds[..n]) <= |commands| <= Inputs(rounds[..n]) + 1
            && sent == Due(codec, rounds[..n], commands)
            && (part != [] ==> ending.Errored? && n < |rounds| && CutShort(codec, rounds, n, commands, sent, part))
    ensures Subscribe !in commands || NothingLost(rounds) ==>
              && Decodes(codec, old(input.Coming()), commands)
              && (ending.Open? ==> input.Coming() == After(old(input.Coming()), |commands|))
              && (ending.PeerClosed? ==>
                    |commands| == |ReadAll(old(input.Coming())).messages| && !ReadAll(old(input.Coming())).broken)
    ensures Subscribe !in commands ==>
              && |sent| <= |commands| <= |sent| + 1
              && (ending.Open? || ending.PeerClosed? ==> |sent| == |commands|)
              && (forall i | 0 <= i < |sent| :: sent[i] == codec.dispatch(commands[i], i))
  {
    hide ReadAll;
    hide Frames;
    hide Encoded;
    hide Talked;
    hide Due;
    hide Decodes;
    hide Completed;
    hide Inputs;
    hide After;
    hide ReadFrame;
    hide Frame;
    hide NothingLost;
    hide CutShort;
    ghost var stream := input.Coming();
    var subscribed := false;
    var served := 0;
    ending, commands, sent, part := Open, [], [], [];
    Start(codec, stream, rounds);
    for n := 0 to |rounds|
      invariant input.Valid()
      invariant output.written == Frames(Encoded(codec, sent))
      invariant Talk(ending, input.Coming(), commands, sent, part) == Talked(codec, stream, rounds[..n])
      invariant ending.Open? && part == []
      invariant served == |commands| && (subscribed <==> Subscribe in commands)
    {
      TalkedOneMore(codec, stream, rounds, n);
      match rounds[n] {
        case Input(cut) =>
          var incoming := input.ReadMsg();
          if incoming.Closed? || incoming.Short? {
            ending := if incoming.Closed? then PeerClosed else Errored;
            TalkedStays(codec, stream, rounds, n + 1);
            break;
          }
          var cmd := codec.command(incoming.bytes);
          if cmd.None? {
            ending := Errored;
            TalkedStays(codec, stream, rounds, n + 1);
            break;
          }
          var reply := codec.dispatch(cmd.value, served);
          commands, served := commands + [cmd.value], served + 1;
          subscribed := subscribed || cmd.value.Subscribe?;
          var ok := output.WriteMsg(codec.event(reply), cut);
          if !ok {
            ending, part := Errored, GetsOut(codec.event(reply), cut);
            TalkedStays(codec, stream, rounds, n + 1);
            break;
          }
          Sent(codec, sent, reply);
          sent := sent + [reply];
        case Pushed(item, lost, cut) =>
          // Without a subscription this branch is never ready.
          if subscribed {
            input.Drop(lost);
            if item.Some? {
              var ok := output.WriteMsg(codec.event(StatusEvent(item.value)), cut);
              if !ok {
                ending, part := Errored, GetsOut(codec.event(StatusEvent(item.value)), cut);
                TalkedStays(codec, stream, rounds, n + 1);
                break;
              }
              Sent(codec, sent, StatusEvent(item.value));
              sent := sent + [StatusEvent(item.value)];
            }
          }
      }
    }
    assert rounds[..|rounds|] == rounds;
    assert Frames(Encoded(codec, sent)) + [] == Frames(Encoded(codec, sent));
    Claims(codec, stream, rounds);
  }

  lemma Start(codec: Codec, stream: Bytes, rounds: seq<Round>)
    ensures Talked(codec, stream, rounds[..0]) == Talk(Open, stream, [], [], [])
    ensures Frames(Encoded(codec, [])) == []
  {
  }

  /** What holds of a whole connection. */
  lemma {:induction false} Claims(codec: Codec, stream: Bytes, rounds: seq<Round>)
    ensures var t := Talked(codec, stream, rounds);
            var n := Completed(codec, stream, rounds);
            && (t.ending.Open? <==> n == |rounds|)
            && Inputs(rounds[..n]) <= |t.commands| <= Inputs(rounds[..n]) + 1
            && t.sent == Due(codec, rounds[..n], t.commands)
            && (t.part != [] ==>
                  t.ending.Errored? && n < |rounds| && CutShort(codec, rounds, n, t.commands, t.sent, t.part))
            && (Subscribe !in t.commands || NothingLost(rounds) ==>
                  && Decodes(codec, stream, t.commands)
                  && (t.ending.Open? ==> t.coming == After(stream, |t.commands|))
                  && (t.ending.PeerClosed? ==>
                        |t.commands| == |ReadAll(stream).messages| && !ReadAll(stream).broken))
            && (Subscribe !in t.commands ==>
                  && |t.sent| <= |t.commands| <= |t.sent| + 1
                  && (t.ending.Open? || t.ending.PeerClosed? ==> |t.sent| == |t.commands|)
                  && (forall i | 0 <= i < |t.sent| :: t.sent[i] == codec.dispatch(t.commands[i], i)))
  {
    hide ReadAll;
    hide Talked;
    hide Due;
    hide Decodes;
    hide CutShort;
    var t := Talked(codec, stream, rounds);
    EventsInOrder(codec, stream, rounds);
    if Subscribe !in t.commands || NothingLost(rounds) {
      ReadsItsFrames(codec, stream, rounds);
    }
    if Subscribe !in t.commands {
      OnlyRepliesDue(codec, rounds[..Completed(codec, stream, rounds)], t.commands);
    }
  }

  lemma Sent(codec: Codec, sent: seq<Event>, e: Event)
    ensures Frames(Encoded(codec, sent + [e])) == Frames(Encoded(codec, sent)) + Frame(codec.event(e))
  {
    EncodedAppend(codec, sent, e);
    FramesAppend(Encoded(codec, sent), codec.event(e));
  }

  lemma {:induction false} ReadAllStops(codec: Codec, stream: Bytes, coming: Bytes, commands: seq<Command>)
    requires !ReadFrame(coming).Message?
    requires Decodes(codec, stream, commands) && coming == After(stream, |commands|)
    ensures |commands| == |ReadAll(stream).messages| && (ReadAll(stream).broken <==> ReadFrame(coming).Broken?)
  {
    ReadAllPrefix(stream, |commands|);
    assert ReadAll(coming).messages == [];
  }

  /** The peer decodes from the written bytes exactly the events sent, in order, and the one whose
      write failed only if its whole frame had got out; then it meets the end or a cut frame. */
  lemma WrittenBytesDecode(codec: Codec, sent: seq<Event>, e: Event, cut: nat)
    requires forall x | x in sent :: |codec.event(x)| < TWO_32
    requires |codec.event(e)| < TWO_32
    ensures ReadAll(Frames(Encoded(codec, sent)) + GetsOut(codec.event(e), Some(cut))) ==
            if cut < |Frame(codec.event(e))| then Framing.Reading(Encoded(codec, sent), cut >= 4)
            else Framing.Reading(Encoded(codec, sent + [e]), false)
  {
    EncodedSendable(codec, sent);
    var p := codec.event(e);
    if cut < |Frame(p)| {
      FramesReadOn(Encoded(codec, sent), Frame(p)[..cut]);
      assert Frames([p]) == Frame(p) + Frames([]) == Frame(p);
      CutFirstFrame([p], cut);
      assert Encoded(codec, sent) + [] == Encoded(codec, sent);
    } else {
      Sent(codec, sent, e);
      EncodedAppend(codec, sent, e);
      FramesRoundTrip(Encoded(codec, sent + [e]));
    }
  }

  lemma {:induction false} EncodedSendable(codec: Codec, events: seq<Event>)
    requires forall x | x in events :: |codec.event(x)| < TWO_32
    ensures Sendable(Encoded(codec, events)) && |Encoded(codec, events)| == |events|
  {
    if events != [] {
      EncodedSendable(codec, events[1..]);
    }
  }

  // --- the client's subscription ---

  /** The next status in a list of received events, and the events behind it. */
  function NextStatus(events: seq<Event>): Option<Status> {
    if events == [] then None
    else if events[0].StatusEvent? then Some(events[0].status)
    else NextStatus(events[1..])
  }

  function BehindNext(events: seq<Event>): seq<Event> {
    if events == [] then []
    else if events[0].StatusEvent? then events[1..]
    else BehindNext(events[1..])
  }

  /** It is the first of the statuses, and everything before it is something else. */
  lemma {:induction false} NextStatusExactly(events: seq<Event>, k: nat)
    requires k < |events| && events[k].StatusEvent? && forall i | 0 <= i < k :: !events[i].StatusEvent?
    ensures NextStatus(events) == Some(events[k].status) && BehindNext(events) == events[k + 1..]
  {
    if k > 0 {
      NextStatusExactly(events[1..], k - 1);
    }
  }

  lemma {:induction false} NoNextStatus(events: seq<Event>)
    requires forall e | e in events :: !e.StatusEvent?
    ensures NextStatus(events) == None && BehindNext(events) == []
  {
    if events != [] {
      assert events[0] in events;
      NoNextStatus(events[1..]);
    }
  }

  /** `Subscription::next` on a stream of whole event frames, behind which it ends or is cut: skips
      everything that is not a status, returns the first one, and leaves exactly the frames behind
      it; with no status left it answers the end, or an error if a frame is cut behind its header. */
  method NextUpdate(input: ByteSource, codec: Codec, decode: Bytes -> Option<Event>, ghost events: seq<Event>,
                    ghost tail: Bytes)
    returns (r: Option<Status>, ok: bool)
    requires input.Valid() && input.Coming() == Frames(Encoded(codec, events)) + tail && !ReadFrame(tail).Message?
    requires forall e | e in events :: |codec.event(e)| < TWO_32 && decode(codec.event(e)) == Some(e)
    modifies input
    ensures input.Valid() && r == NextStatus(events)
    ensures r.Some? ==> ok && input.Coming() == Frames(Encoded(codec, BehindNext(events))) + tail
    ensures r.None? ==> (ok <==> ReadFrame(tail).End?) && input.Coming() == []
  {
    ghost var left := events;
    while true
      invariant input.Valid() && input.Coming() == Frames(Encoded(codec, left)) + tail
      invariant NextStatus(left) == NextStatus(events) && BehindNext(left) == BehindNext(events)
      invariant forall e | e in left :: |codec.event(e)| < TWO_32 && decode(codec.event(e)) == Some(e)
      decreases |left|
    {
      FirstEvent(codec, left, tail);
      var incoming := input.ReadMsg();
      match incoming {
        case Closed => return None, true;
        case Short => return None, false;
        case Payload(bytes) =>
          var e := decode(bytes);
          if e.None? {
            return None, false;
          }
          left := left[1..];
          if e.value.StatusEvent? {
            return Some(e.value.status), true;
          }
      }
    }
  }

  lemma FirstEvent(codec: Codec, events: seq<Event>, tail: Bytes)
    requires forall e | e in events :: |codec.event(e)| < TWO_32
    ensures var r := ReadFrame(Frames(Encoded(codec, events)) + tail);
            if events == [] then r == ReadFrame(tail)
            else r == Message(codec.event(events[0]), Frames(Encoded(codec, events[1..])) + tail)
  {
    hide ReadFrame;
    if events == [] {
      assert Frames(Encoded(codec, events)) + tail == tail;
    } else {
      var later := Frames(Encoded(codec, events[1..])) + tail;
      FrameReadsExactly(codec.event(events[0]), later);
      assert Frames(Encoded(codec, events)) + tail == Frame(codec.event(events[0])) + later;
    }
  }

  /** All statuses among the events. */
  function Statuses(events: seq<Event>): seq<Status> {
    if events == [] then []
    else (if events[0].StatusEvent? then [events[0].status] else []) + Statuses(events[1..])
  }

  /** The statuses of a list are those of its parts, in order. */
  lemma {:induction false} StatusesAppend(a: seq<Event>, b: seq<Event>)
    ensures Statuses(a + b) == Statuses(a) + Statuses(b)
    decreases |a|
  {
    hide Statuses;
    if a == [] {
      NoStatuses();
      assert a + b == b && [] + Statuses(b) == Statuses(b);
    } else {
      assert (a + b)[1..] == a[1..] + b;
      var first := FirstStatus(a);
      var again := FirstStatus(a + b);
      StatusesAppend(a[1..], b);
      Regroup(first, Statuses(a[1..]), Statuses(b));
    }
  }

  lemma NoStatuses()
    ensures Statuses([]) == []
  {
  }

  lemma FirstStatus(events: seq<Event>) returns (first: seq<Status>)
    requires events != []
    ensures first == if events[0].StatusEvent? then [events[0].status] else []
    ensures Statuses(events) == first + Statuses(events[1..])
  {
    first := if events[0].StatusEvent? then [events[0].status] else [];
  }

  lemma StatusesOfOne(e: Event)
    ensures Statuses([e]) == if e.StatusEvent? then [e.status] else []
  {
    assert Statuses([e][1..]) == [];
  }

  lemma {:induction false} StatusesNext(events: seq<Event>)
    ensures Statuses(events) == if NextStatus(events).None? then []
                                else [NextStatus(events).value] + Statuses(BehindNext(events))
    ensures |BehindNext(events)| <= |events| && (NextStatus(events).Some? ==> |BehindNext(events)| < |events|)
    ensures forall e | e in BehindNext(events) :: e in events
  {
    if events != [] {
      StatusesNext(events[1..]);
    }
  }

  /** The client's loop: every status of the stream, in order, until the service closes it. */
  method Follow(input: ByteSource, codec: Codec, decode: Bytes -> Option<Event>, ghost events: seq<Event>,
                ghost tail: Bytes)
    returns (seen: seq<Status>, ok: bool)
    requires input.Valid() && input.Coming() == Frames(Encoded(codec, events)) + tail && !ReadFrame(tail).Message?
    requires forall e | e in events :: |codec.event(e)| < TWO_32 && decode(codec.event(e)) == Some(e)
    modifies input
    ensures input.Valid() && seen == Statuses(events) && (ok <==> ReadFrame(tail).End?)
  {
    hide Frames;
    hide Encoded;
    hide Statuses;
    hide ReadFrame;
    ghost var left := events;
    seen := [];
    assert [] + Statuses(events) == Statuses(events);
    while true
      invariant input.Valid() && input.Coming() == Frames(Encoded(codec, left)) + tail
      invariant seen + Statuses(left) == Statuses(events)
      invariant forall e | e in left :: |codec.event(e)| < TWO_32 && decode(codec.event(e)) == Some(e)
      decreases |left|
    {
      StatusesNext(left);
      var r;
      r, ok := NextUpdate(input, codec, decode, left, tail);
      if r.None? {
        assert seen + [] == seen;
        return seen, ok;
      }
      assert (seen + [r.value]) + Statuses(BehindNext(left)) == seen + ([r.value] + Statuses(BehindNext(left)));
      seen, left := seen + [r.value], BehindNext(left);
    }
  }
}
