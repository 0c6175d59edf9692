/** The reconnect loop of internal/quictransport/client.go on the shared path set. */
module Reconnect {
  import opened Backoff
  import opened Bytes
  import opened ClientPaths
  import opened Framing
  import opened PathSet

  /** One turn of the loop: what the sender, the receivers and the other reconnect loops do to the set
      before it looks and while it dials, and how a dial would go. */
  datatype Event = Event(before: seq<Op>, dial: Option<StreamId>, during: seq<Op>)

  /** Nobody else adds a path of this id: every id has one reconnect loop. */
  predicate NeverAdds(ops: seq<Op>, id: int) {
    forall i | 0 <= i < |ops| && (ops[i].OpAdd? || ops[i].OpAppend?) :: ops[i].path.id != id
  }

  predicate OneLoop(events: seq<Event>, id: int) {
    forall i | 0 <= i < |events| :: NeverAdds(events[i].before, id) && NeverAdds(events[i].during, id)
  }

  function SeenBy(s: Paths, id: int, e: Event): Turn {
    if HasId(s, id) then Present else if e.dial.None? then DialFailed else Dialed
  }

  /** The path set after one turn: with the id missing, a successful dial appends a path. */
  function AfterTurn(s: Paths, id: int, e: Event): Paths {
    var found := Replay(s, e.before);
    match SeenBy(found, id, e)
    case Present => found
    case DialFailed => Replay(found, e.during)
    case Dialed =>
      var t := Replay(found, e.during);
      t.(paths := t.paths + [Path(id, e.dial.value)])
  }

  function AfterTurns(s: Paths, id: int, events: seq<Event>): Paths {
    if events == [] then s
    else AfterTurn(AfterTurns(s, id, events[..|events| - 1]), id, events[|events| - 1])
  }

  function TurnsSeen(s: Paths, id: int, events: seq<Event>): (turns: seq<Turn>)
    ensures |turns| == |events|
  {
    if events == [] then [] else
    var front, last := events[..|events| - 1], events[|events| - 1];
    TurnsSeen(s, id, front) + [SeenBy(Replay(AfterTurns(s, id, front), last.before), id, last)]
  }

  /** The streams dialled, each of which gets a receiver. */
  function Joined(turns: seq<Turn>, events: seq<Event>): seq<StreamId>
    requires |turns| == |events|
  {
    if turns == [] then [] else
    var last, e := turns[|turns| - 1], events[|events| - 1];
    Joined(turns[..|turns| - 1], events[..|events| - 1]) + if last.Dialed? && e.dial.Some? then [e.dial.value] else []
  }

  /** What one turn achieves: an id that is up stays up; a missing one is back, once and last in turn,
      exactly if the dial succeeded; otherwise only the others' operations show. */
  lemma TurnEffect(s: Paths, id: int, e: Event)
    requires NeverAdds(e.during, id)
    ensures var found, t := Replay(s, e.before), AfterTurn(s, id, e);
            && (HasId(found, id) ==> t == found)
            && (!HasId(found, id) ==>
                  var others := Replay(found, e.during);
                  && !HasId(others, id)
                  && (HasId(t, id) <==> e.dial.Some?)
                  && (e.dial.None? ==> t == others)
                  && (e.dial.Some? ==> t == others.(paths := others.paths + [Path(id, e.dial.value)])))
  {
    hide Replay, NeverAdds;
    var found := Replay(s, e.before);
    if !HasId(found, id) {
      StaysMissing(found, e.during, id);
      if e.dial.Some? {
        var t := AfterTurn(s, id, e);
        assert t.paths[|t.paths| - 1].id == id;
      }
    }
  }

  /** One receiver for every successful dial. */
  lemma {:induction false} JoinedExactly(s: Paths, id: int, events: seq<Event>)
    ensures |Joined(TurnsSeen(s, id, events), events)| == multiset(TurnsSeen(s, id, events))[Dialed]
  {
    hide AfterTurns, Replay, HasId;
    if events != [] {
      var front, last := events[..|events| - 1], events[|events| - 1];
      JoinedExactly(s, id, front);
      var turns := TurnsSeen(s, id, events);
      assert turns[..|turns| - 1] == TurnsSeen(s, id, front);
      assert turns == TurnsSeen(s, id, front) + [turns[|turns| - 1]];
    }
  }

  lemma AddMissing(s: Paths, path: Path)
    requires !HasId(s, path.id)
    ensures Add(s, path) == (s.(paths := s.paths + [path]), None)
  {
    FoundHas(s, path.id);
  }

  lemma FoundHas(s: Paths, id: int)
    ensures IdIndex(s.paths, id) < |s.paths| ==> HasId(s, id)
  {
    var i := IdIndex(s.paths, id);
    assert i < |s.paths| ==> s.paths[i].id == id;
  }

  /** An id that is missing stays missing while nobody adds it. */
  lemma {:induction false} StaysMissing(s: Paths, ops: seq<Op>, id: int)
    requires !HasId(s, id) && NeverAdds(ops, id)
    ensures !HasId(Replay(s, ops), id)
  {
    hide HasId, Apply;
    if ops != [] {
      StaysMissing(s, ops[..|ops| - 1], id);
      StepMissing(Replay(s, ops[..|ops| - 1]), ops[|ops| - 1], id);
    }
  }

  lemma StepMissing(s: Paths, op: Op, id: int)
    requires !HasId(s, id) && (op.OpAdd? || op.OpAppend? ==> op.path.id != id)
    ensures !HasId(Apply(s, op), id)
  {
    hide Scan, Cooldown, IdIndex, StreamIndex;
  }

  lemma TurnStep(s: Paths, id: int, events: seq<Event>, i: nat)
    requires i < |events|
    ensures var front, e := events[..i], events[i];
            && TurnsSeen(s, id, events[..i + 1])
               == TurnsSeen(s, id, front) + [SeenBy(Replay(AfterTurns(s, id, front), e.before), id, e)]
            && AfterTurns(s, id, events[..i + 1]) == AfterTurn(AfterTurns(s, id, front), id, e)
  {
    hide Replay, AfterTurn;
    assert events[..i + 1][..i] == events[..i];
  }

  /** The set takes the path; whatever it replaced is closed. */
  method Rejoin(pathSet: ClientPathSet, net: Network, path: Path)
    modifies pathSet, net`closed
    ensures var (t, replaced) := Add(old(pathSet.View()), path);
            && pathSet.View() == t
            && net.closed == old(net.closed) + if replaced.Some? then [replaced.value.stream] else []
  {
    var replaced := pathSet.Add(path);
    if replaced.Some? {
      net.Close(replaced.value.stream);
    }
  }

  /** A missing id is dialled: the path joins, or the backoff says how long to sleep. */
  method Redial(id: int, event: Event, pathSet: ClientPathSet, net: Network, backoff: ReconnectBackoff)
    returns (sleep: Option<Duration>)
    requires !HasId(pathSet.View(), id) && NeverAdds(event.during, id)
    modifies pathSet, net`closed, backoff
    ensures var t := Replay(old(pathSet.View()), event.during);
            pathSet.View() == match event.dial
                              case None => t
                              case Some(stream) => t.(paths := t.paths + [Path(id, stream)])
    ensures sleep == if event.dial.None? then Some(old(backoff.current)) else None
    ensures backoff.current == if event.dial.None? then Doubled(old(backoff.current), backoff.max) else backoff.min
    ensures net.closed == old(net.closed)
  {
    hide Replay, Add, HasId, NeverAdds, Doubled;
    StaysMissing(pathSet.View(), event.during, id);
    pathSet.Meanwhile(event.during);
    if event.dial.None? {
      var delay := backoff.Next();
      return Some(delay);
    }
    backoff.Reset();
    AddMissing(pathSet.View(), Path(id, event.dial.value));
    Rejoin(pathSet, net, Path(id, event.dial.value));
    sleep := None;
  }

  /** reconnectClientPath, others using the path set all the while: sleeps follow the backoff since the
      last successful dial, every failed dial is counted, a missing id comes back exactly when a dial
      succeeds, and then with a receiver; no path is ever replaced, so nothing is closed. */
  method ReconnectClientPath(id: int, events: seq<Event>, min: Duration, max: Duration,
                             pathSet: ClientPathSet, net: Network)
    returns (sleeps: seq<Option<Duration>>, errors: nat, receivers: seq<StreamId>)
    requires OneLoop(events, id)
    modifies pathSet, net`closed
    ensures pathSet.View() == AfterTurns(old(pathSet.View()), id, events)
    ensures var turns := TurnsSeen(old(pathSet.View()), id, events);
            && |sleeps| == |turns|
            && (forall i | 0 <= i < |turns| :: sleeps[i] == SleepOf(turns, i, min, max))
            && errors == multiset(turns)[DialFailed]
            && receivers == Joined(turns, events)
    ensures net.closed == old(net.closed)
  {
    hide Doubled, Replay, Add, HasId, SleepOf, AfterTurns, TurnsSeen, FailedDials, NeverAdds, Joined;
    var backoff := new ReconnectBackoff(min, max);
    ghost var view, turns := pathSet.View(), [];
    sleeps, errors, receivers := [], 0, [];
    NoTurns(view, id);
    assert events[..0] == [];
    for i := 0 to |events|
      invariant backoff.min == min && backoff.max == max
      invariant pathSet.View() == AfterTurns(view, id, events[..i])
      invariant turns == TurnsSeen(view, id, events[..i])
      invariant backoff.current == DelayAt(min, max, FailedDials(turns))
      invariant |sleeps| == |turns| == i && forall j | 0 <= j < i :: sleeps[j] == SleepOf(turns, j, min, max)
      invariant errors == multiset(turns)[DialFailed]
      invariant receivers == Joined(turns, events[..i])
      invariant net.closed == old(net.closed)
    {
      var event := events[i];
      TurnStep(view, id, events, i);
      pathSet.Meanwhile(event.before);
      ghost var seen := SeenBy(pathSet.View(), id, event);
      SleepsKept(turns, seen, min, max);
      JoinedStep(turns, seen, events, i);
      turns := turns + [seen];
      var has := pathSet.HasPathID(id);
      if has {
        sleeps := sleeps + [Some(min)];
        continue;
      }
      var sleep := Redial(id, event, pathSet, net, backoff);
      sleeps := sleeps + [sleep];
      if event.dial.None? {
        errors := errors + 1;
      } else {
        receivers := receivers + [event.dial.value];
      }
    }
    assert events[..|events|] == events;
  }

  lemma NoTurns(s: Paths, id: int)
    ensures AfterTurns(s, id, []) == s && TurnsSeen(s, id, []) == [] && FailedDials([]) == 0 && Joined([], []) == []
  {
  }

  lemma JoinedStep(turns: seq<Turn>, turn: Turn, events: seq<Event>, i: nat)
    requires |turns| == i < |events|
    ensures Joined(turns + [turn], events[..i + 1])
            == Joined(turns, events[..i])
               + if turn.Dialed? && events[i].dial.Some? then [events[i].dial.value] else []
  {
    assert (turns + [turn])[..i] == turns && events[..i + 1][..i] == events[..i];
  }

  lemma SleepsKept(turns: seq<Turn>, turn: Turn, min: Duration, max: Duration)
    ensures var all := turns + [turn];
            && (forall j | 0 <= j < |turns| :: SleepOf(all, j, min, max) == SleepOf(turns, j, min, max))
            && SleepOf(all, |turns|, min, max)
               == (if turn.Present? then Some(min)
                   else if turn.DialFailed? then Some(DelayAt(min, max, FailedDials(turns))) else None)
            && FailedDials(all)
               == (if turn.Present? then FailedDials(turns) else if turn.DialFailed? then FailedDials(turns) + 1 else 0)
  {
    var all := turns + [turn];
    assert all[..|turns|] == turns;
    assert forall j | 0 <= j < |turns| :: all[..j] == turns[..j];
  }
}
