/** The end-to-end guarantees of the pump, for every run: any interleaving, any length, any pattern of
    write failures, removals, reconnections, delays and handler failures. */
module Safety {
  import opened Bytes
  import opened Framing
  import opened PathSet
  import opened Policy
  import opened Protocol
  import opened Transfer
  import Membership

  lemma InitOk(c: Config, initial: seq<int>)
    requires ValidStart(c, initial)
    ensures Transfer.Inv(c, Init(c, initial))
  {
    var s := Init(c, initial);
    forall i | 0 <= i < |s.streams| ensures StreamOk(c, s, i) {
      assert PacketsAt(s.packets, []) == [];
    }
  }

  lemma {:induction false} Reachable(c: Config, initial: seq<int>, steps: seq<Step>)
    requires ValidStart(c, initial)
    ensures Transfer.Inv(c, Execute(c, Init(c, initial), steps))
    ensures Membership.Inv(c, Execute(c, Init(c, initial), steps))
  {
    hide Transfer.Inv, Membership.Inv, Init, Do, Enabled, ValidStart;
    Membership.Reachable(c, initial, steps);
    if steps == [] {
      InitOk(c, initial);
    } else {
      var earlier := steps[..|steps| - 1];
      Reachable(c, initial, earlier);
      var t := Execute(c, Init(c, initial), earlier);
      if Enabled(c, t, steps[|steps| - 1]) {
        StepKeeps(c, t, steps[|steps| - 1]);
      }
    }
  }

  /** Along each stream the far device gets, in order and unchanged, what the far policy allows of a
      prefix of the packets committed to that stream; those were read in that order. */
  lemma StreamDelivery(c: Config, initial: seq<int>, steps: seq<Step>, i: nat)
    requires ValidStart(c, initial) && i < |Execute(c, Init(c, initial), steps).streams|
    ensures var s := Execute(c, Init(c, initial), steps);
            var numbers := s.streams[i].committed;
            && (forall a | 0 <= a < |numbers| :: numbers[a] < |s.packets|)
            && (forall a, b | 0 <= a < b < |numbers| :: numbers[a] < numbers[b])
            && s.streams[i].frames <= |numbers|
            && DeliveredBy(s.device, i)
               == Allowed(c.receivePolicy, PacketsAt(s.packets, numbers[..s.streams[i].frames]))
            && DeliveredBy(s.device, i) <= Allowed(c.receivePolicy, PacketsAt(s.packets, numbers))
  {
    hide Execute, Init, ValidStart, Allow;
    Reachable(c, initial, steps);
    var s := Execute(c, Init(c, initial), steps);
    assert StreamOk(c, s, i);
    var numbers, k := s.streams[i].committed, s.streams[i].frames;
    AllowedPrefix(c.receivePolicy, PacketsAt(s.packets, numbers), k);
    assert PacketsAt(s.packets, numbers)[..k] == PacketsAt(s.packets, numbers[..k]);
  }

  /** Nothing is held back: once all of a stream's bytes arrived and no frame is left to decode, the far
      device got everything its policy allows of the packets committed to that stream. */
  lemma AllDelivered(c: Config, initial: seq<int>, steps: seq<Step>, i: nat)
    requires ValidStart(c, initial) && i < |Execute(c, Init(c, initial), steps).streams|
    requires var st := Execute(c, Init(c, initial), steps).streams[i];
             st.consumed <= st.arrived == |st.log| && NextFrame(st).Bad?
    ensures var s := Execute(c, Init(c, initial), steps);
            && (forall a | 0 <= a < |s.streams[i].committed| :: s.streams[i].committed[a] < |s.packets|)
            && DeliveredBy(s.device, i) == Allowed(c.receivePolicy, PacketsAt(s.packets, s.streams[i].committed))
  {
    hide Execute, Init, ValidStart, Allow;
    Reachable(c, initial, steps);
    var s := Execute(c, Init(c, initial), steps);
    assert StreamOk(c, s, i);
    NothingLeftBehind(c, s, i);
    assert s.streams[i].committed[..s.streams[i].frames] == s.streams[i].committed;
  }

  /** A packet number is committed at one place only: to one stream, once. */
  lemma CommittedOnce(c: Config, initial: seq<int>, steps: seq<Step>, i: nat, a: nat, j: nat, b: nat)
    requires ValidStart(c, initial)
    requires var s := Execute(c, Init(c, initial), steps);
             && i < |s.streams| && a < |s.streams[i].committed| && j < |s.streams| && b < |s.streams[j].committed|
             && s.streams[i].committed[a] == s.streams[j].committed[b]
    ensures i == j && a == b
  {
    Reachable(c, initial, steps);
    var s := Execute(c, Init(c, initial), steps);
    assert StreamOk(c, s, i) && StreamOk(c, s, j);
  }

  // ---- At most once ----

  function DevicePackets(device: seq<Delivery>): seq<Payload> {
    seq(|device|, a requires 0 <= a < |device| => device[a].packet)
  }

  /** Picking entries of a list at distinct positions gives no more of anything than the list has. */
  lemma {:induction false} DistinctSelection(packets: seq<Payload>, numbers: seq<nat>)
    requires forall a | 0 <= a < |numbers| :: numbers[a] < |packets|
    requires forall a, b | 0 <= a < b < |numbers| :: numbers[a] != numbers[b]
    ensures multiset(PacketsAt(packets, numbers)) <= multiset(packets)
    decreases |packets|
  {
    if numbers == [] {
      assert PacketsAt(packets, numbers) == [];
    } else {
      assert numbers[0] < |packets|;
      var n := |packets| - 1;
      var front := packets[..n];
      assert packets == front + [packets[n]];
      if j: nat :| j < |numbers| && numbers[j] == n {
        var others := numbers[..j] + numbers[j + 1..];
        assert forall a | 0 <= a < |others| :: others[a] == numbers[if a < j then a else a + 1];
        DistinctSelection(front, others);
        SelectLast(packets, numbers, j);
      } else {
        DistinctSelection(front, numbers);
        assert PacketsAt(packets, numbers) == PacketsAt(front, numbers);
      }
    }
  }

  lemma SelectLast(packets: seq<Payload>, numbers: seq<nat>, j: nat)
    requires packets != [] && j < |numbers| && numbers[j] == |packets| - 1
    requires forall a | 0 <= a < |numbers| :: if a == j then numbers[a] == |packets| - 1 else numbers[a] < |packets| - 1
    ensures var front, others := packets[..|packets| - 1], numbers[..j] + numbers[j + 1..];
            && (forall a | 0 <= a < |others| :: others[a] < |front|)
            && multiset(PacketsAt(packets, numbers))
               == multiset(PacketsAt(front, others)) + multiset{packets[|packets| - 1]}
  {
    var front, last := packets[..|packets| - 1], packets[|packets| - 1];
    var before, after := numbers[..j], numbers[j + 1..];
    assert numbers == before + ([numbers[j]] + after);
    PacketsAtThen(packets, before, [numbers[j]] + after);
    PacketsAtThen(packets, [numbers[j]], after);
    PacketsAtThen(front, before, after);
    PacketsGrow(front, packets, before);
    PacketsGrow(front, packets, after);
    assert PacketsAt(packets, [numbers[j]]) == [last];
    Shuffled(PacketsAt(front, before), last, PacketsAt(front, after));
  }

  lemma PacketsAtThen(packets: seq<Payload>, a: seq<nat>, b: seq<nat>)
    requires forall i | 0 <= i < |a| :: a[i] < |packets|
    requires forall i | 0 <= i < |b| :: b[i] < |packets|
    ensures PacketsAt(packets, a + b) == PacketsAt(packets, a) + PacketsAt(packets, b)
  {
  }

  lemma Shuffled(before: seq<Payload>, last: Payload, after: seq<Payload>)
    ensures multiset(before + ([last] + after)) == multiset(before + after) + multiset{last}
  {
  }

  /** The number of the packet a delivery carries. */
  function NumberOf(s: State, d: Delivery): nat
    requires Known(s, d.stream) && d.frame < |s.streams[d.stream].committed|
  {
    s.streams[d.stream].committed[d.frame]
  }

  lemma NumbersDistinct(c: Config, s: State, d: Delivery, e: Delivery)
    requires Transfer.Inv(c, s)
    requires Known(s, d.stream) && d.frame < |s.streams[d.stream].committed|
    requires Known(s, e.stream) && e.frame < |s.streams[e.stream].committed|
    requires d.stream != e.stream || d.frame != e.frame
    ensures NumberOf(s, d) != NumberOf(s, e)
  {
    assert StreamOk(c, s, d.stream) && StreamOk(c, s, e.stream);
  }

  /** Nothing is made up and nothing arrives twice: over all streams together, the far device gets each
      packet at most as often as it was read, whatever failed over to whatever. */
  lemma AtMostOnce(c: Config, initial: seq<int>, steps: seq<Step>)
    requires ValidStart(c, initial)
    ensures var s := Execute(c, Init(c, initial), steps);
            multiset(DevicePackets(s.device)) <= multiset(s.packets)
  {
    hide Execute, Init, ValidStart, StreamOk, CommitOk;
    Reachable(c, initial, steps);
    var s := Execute(c, Init(c, initial), steps);
    var device := s.device;
    assert DeviceOk(s);
    var numbers: seq<nat> := seq(|device|, a requires 0 <= a < |device| => NumberOf(s, device[a]));
    forall a, b | 0 <= a < b < |numbers| ensures numbers[a] != numbers[b] {
      NumbersDistinct(c, s, device[a], device[b]);
    }
    DistinctSelection(s.packets, numbers);
    assert PacketsAt(s.packets, numbers) == DevicePackets(device);
  }

  // ---- Frame integrity ----

  /** The bytes of every active path are whole frames of its committed packets, except while the sender
      is on that very path between its two writes or has just seen one of them fail. */
  lemma ActivePathsHoldWholeFrames(c: Config, initial: seq<int>, steps: seq<Step>, p: Path)
    requires ValidStart(c, initial) && p in Execute(c, Init(c, initial), steps).active.paths
    ensures var s := Execute(c, Init(c, initial), steps);
            && Known(s, p.stream)
            && (forall a | 0 <= a < |s.streams[p.stream].committed| :: s.streams[p.stream].committed[a] < |s.packets|)
            && ValidPayloads(s.packets)
            && (!((s.sender.HalfWritten? || s.sender.Failed? || s.sender.Marked?)
                   && s.sender.path.stream == p.stream) ==>
                  s.streams[p.stream].log == EncodeAll(PacketsAt(s.packets, s.streams[p.stream].committed)))
  {
    hide Execute, Init, ValidStart, EncodeAll;
    Reachable(c, initial, steps);
    var s := Execute(c, Init(c, initial), steps);
    var i :| 0 <= i < |s.active.paths| && s.active.paths[i] == p;
    assert Known(s, p.stream);
    assert StreamOk(c, s, p.stream);
    assert HasStream(s.active, p.stream);
    var whole := EncodeAll(PacketsAt(s.packets, s.streams[p.stream].committed));
    assert whole + [] == whole;
  }

  /** A torn stream ends in a strict part of one frame, has left the set or is about to, and never
      takes another byte. */
  lemma TornStreamsStayTorn(c: Config, initial: seq<int>, steps: seq<Step>, step: Step, i: nat)
    requires ValidStart(c, initial)
    requires var s := Execute(c, Init(c, initial), steps);
             i < |s.streams| && s.streams[i].torn.Some? && Enabled(c, s, step)
    ensures var s := Execute(c, Init(c, initial), steps);
            var torn, t := s.streams[i].torn.value, Do(c, s, step);
            && (HasStream(s.active, i) ==> (s.sender.Failed? || s.sender.Marked?) && s.sender.path.stream == i)
            && torn.packet < |s.packets| && ValidPayloads(s.packets)
            && torn.taken < |EncodeFrame(s.packets[torn.packet])|
            && (forall a | 0 <= a < |s.streams[i].committed| :: s.streams[i].committed[a] < |s.packets|)
            && s.streams[i].log == EncodeAll(PacketsAt(s.packets, s.streams[i].committed))
                                   + EncodeFrame(s.packets[torn.packet])[..torn.taken]
            && i < |t.streams| && t.streams[i].log == s.streams[i].log && t.streams[i].torn == s.streams[i].torn
  {
    hide Execute, Init, ValidStart, EncodeAll, EncodeFrame;
    Reachable(c, initial, steps);
    var s := Execute(c, Init(c, initial), steps);
    assert StreamOk(c, s, i);
    LogFrozen(c, s, step, i);
  }

  lemma LogFrozen(c: Config, s: State, step: Step, i: nat)
    requires i < |s.streams| && Enabled(c, s, step)
    requires !((s.sender.Writing? || s.sender.HalfWritten?) && s.sender.path.stream == i)
    ensures i < |Do(c, s, step).streams|
    ensures Do(c, s, step).streams[i].log == s.streams[i].log && Do(c, s, step).streams[i].torn == s.streams[i].torn
  {
    hide Evict, CloseReplaced, Add, NextPath, MarkFailure, MarkSuccess, NextFrame;
    hide DoWriteHeader, DoWritePayload, DoHandle;
    match step
    case WriteHeader(_, _) => OthersFrozen(c, s, step, i);
    case WritePayload(_, _) => OthersFrozen(c, s, step, i);
    case Handle(_, _) => HandlingFreezes(c, s, step, i);
    case RemoveFailed => Membership.EvictOnlyCounts(s, s.sender.path.stream, c.role.Client?, i);
    case StopReceiver(stream) =>
      Membership.EvictOnlyCounts(Put(s, stream, s.streams[stream].(receiver := Stopped)), stream, c.role.Client?, i);
    case Join(id) => Membership.CloseOnlyCounts(s, Add(s.active, Path(id, s.reconnect[id].stream)).1, i);
    case _ =>
  }

  lemma OthersFrozen(c: Config, s: State, step: Step, i: nat)
    requires i < |s.streams| && Enabled(c, s, step) && (step.WriteHeader? || step.WritePayload?)
    requires s.sender.path.stream != i
    ensures i < |Do(c, s, step).streams| && Do(c, s, step).streams[i] == s.streams[i]
  {
    hide Uint32, PutUint32, Current;
  }

  lemma HandlingFreezes(c: Config, s: State, step: Step, i: nat)
    requires i < |s.streams| && Enabled(c, s, step) && step.Handle?
    ensures i < |Do(c, s, step).streams|
    ensures Do(c, s, step).streams[i].log == s.streams[i].log && Do(c, s, step).streams[i].torn == s.streams[i].torn
  {
    hide NextFrame;
  }

  // ---- Policy and conservation ----

  /** Only packets the sending policy admits are ever in hand or committed. */
  ghost predicate PolicyOk(c: Config, s: State) {
    && (InHand(s.sender) ==> s.packets != [] && Allow(c.sendPolicy, Current(s)))
    && (forall k | k in s.owner :: k < |s.packets| && Allow(c.sendPolicy, s.packets[k]))
  }

  lemma PolicyKeeps(c: Config, s: State, step: Step)
    requires PolicyOk(c, s) && Enabled(c, s, step)
    ensures PolicyOk(c, Do(c, s, step))
  {
    hide PolicyOk, Enabled, Allow;
    match step
    case Read(packet) => ReadAdmits(c, s, packet);
    case WriteHeader(_, _) => WritingAdmits(c, s, step);
    case WritePayload(_, _) => WritingAdmits(c, s, step);
    case Pick(_) => SenderAdmits(c, s, step);
    case RecordFailure(_) => SenderAdmits(c, s, step);
    case RecordSuccess => SenderAdmits(c, s, step);
    case RemoveFailed => EvictionAdmits(c, s, step);
    case StopReceiver(_) => EvictionAdmits(c, s, step);
    case _ => OthersAdmit(c, s, step);
  }

  lemma ReadAdmits(c: Config, s: State, packet: Payload)
    requires PolicyOk(c, s) && Enabled(c, s, Read(packet))
    ensures PolicyOk(c, DoRead(c, s, packet))
  {
    hide Allow;
  }

  lemma WritingAdmits(c: Config, s: State, step: Step)
    requires PolicyOk(c, s) && Enabled(c, s, step) && (step.WriteHeader? || step.WritePayload?)
    ensures PolicyOk(c, Do(c, s, step))
  {
    hide Uint32, PutUint32, Allow;
  }

  lemma SenderAdmits(c: Config, s: State, step: Step)
    requires PolicyOk(c, s) && Enabled(c, s, step) && (step.Pick? || step.RecordFailure? || step.RecordSuccess?)
    ensures PolicyOk(c, Do(c, s, step))
  {
    hide NextPath, MarkFailure, MarkSuccess, Allow;
  }

  lemma EvictionAdmits(c: Config, s: State, step: Step)
    requires PolicyOk(c, s) && Enabled(c, s, step) && (step.RemoveFailed? || step.StopReceiver?)
    ensures PolicyOk(c, Do(c, s, step))
  {
    hide Remove, Allow;
  }

  /** Steps that touch neither the sender nor its packets. */
  lemma OthersAdmit(c: Config, s: State, step: Step)
    requires PolicyOk(c, s) && Enabled(c, s, step)
    requires step.CheckMissing? || step.DialFails? || step.DialSucceeds? || step.Join? || step.StartReceiver?
             || step.Accept? || step.Arrive? || step.Handle? || step.StopHandler?
    ensures PolicyOk(c, Do(c, s, step))
  {
    hide Add, NextFrame, Allow;
    var t := Do(c, s, step);
    assert t.sender == s.sender && t.packets == s.packets && t.owner == s.owner;
  }

  lemma {:induction false} PolicyReachable(c: Config, initial: seq<int>, steps: seq<Step>)
    requires ValidStart(c, initial)
    ensures PolicyOk(c, Execute(c, Init(c, initial), steps))
  {
    hide Do, Enabled, Allow;
    if steps != [] {
      PolicyReachable(c, initial, steps[..|steps| - 1]);
      var t := Execute(c, Init(c, initial), steps[..|steps| - 1]);
      if Enabled(c, t, steps[|steps| - 1]) {
        PolicyKeeps(c, t, steps[|steps| - 1]);
      }
    }
  }

  /** A packet the sending policy denies is never committed to any stream, so never delivered. */
  lemma DeniedNeverSent(c: Config, initial: seq<int>, steps: seq<Step>, i: nat, a: nat)
    requires ValidStart(c, initial)
    requires var s := Execute(c, Init(c, initial), steps);
             i < |s.streams| && a < |s.streams[i].committed|
    ensures var s := Execute(c, Init(c, initial), steps);
            s.streams[i].committed[a] < |s.packets| && Allow(c.sendPolicy, s.packets[s.streams[i].committed[a]])
  {
    hide Execute, Init, ValidStart, Allow;
    Reachable(c, initial, steps);
    PolicyReachable(c, initial, steps);
    assert StreamOk(c, Execute(c, Init(c, initial), steps), i);
  }

  /** Every packet read is committed to a stream, dropped, or still in the sender's hands. */
  lemma PacketsAccountedFor(c: Config, initial: seq<int>, steps: seq<Step>)
    requires ValidStart(c, initial)
    ensures var s := Execute(c, Init(c, initial), steps);
            && |s.packets| == s.tx + s.drops + (if s.sender.Idle? then 0 else 1)
            && |s.owner| == s.tx + (if s.sender.Sent? then 1 else 0)
  {
    Reachable(c, initial, steps);
  }

  /** A step drops a packet exactly if it reads one that the policy denies, finds the path set empty, or
      gives up the one attempt the server makes. */
  lemma DropsExactly(c: Config, s: State, step: Step)
    requires Enabled(c, s, step)
    ensures Do(c, s, step).drops == s.drops
            + if || (step.Read? && !Allow(c.sendPolicy, step.packet))
                 || (step.Pick? && s.active.paths == [])
                 || (step.RemoveFailed? && c.role.Server?)
              then 1 else 0
  {
    hide Remove, Add, NextPath, MarkFailure, MarkSuccess, NextFrame, Allow, DoWriteHeader, DoWritePayload, DoHandle;
    if step.WriteHeader? || step.WritePayload? || step.Handle? {
      NoDrop(c, s, step);
    }
  }

  lemma NoDrop(c: Config, s: State, step: Step)
    requires Enabled(c, s, step) && (step.WriteHeader? || step.WritePayload? || step.Handle?)
    ensures Do(c, s, step).drops == s.drops
  {
    hide Uint32, PutUint32, Current, NextFrame, Allow;
  }

  // ---- The steps there are ----

  /** In every reachable state the sender can go on: whatever the outcome of a write, as long as a failed
      one leaves its frame incomplete. */
  lemma SenderGoesOn(c: Config, initial: seq<int>, steps: seq<Step>, packet: Payload, now: int, ok: bool, taken: nat)
    requires ValidStart(c, initial)
    ensures var s := Execute(c, Init(c, initial), steps);
            match s.sender
            case Idle => ValidPayload(packet) ==> Enabled(c, s, Read(packet))
            case Routing => now >= s.now ==> Enabled(c, s, Pick(now))
            case Writing(_) => taken <= HEADER_SIZE ==> Enabled(c, s, WriteHeader(ok, taken))
            case HalfWritten(_) =>
              s.packets != [] && (taken < |Current(s)| ==> Enabled(c, s, WritePayload(ok, taken)))
            case Failed(_) =>
              if c.role.Client? then now >= s.now ==> Enabled(c, s, RecordFailure(now)) else Enabled(c, s, RemoveFailed)
            case Marked(_) => c.role.Client? ==> Enabled(c, s, RemoveFailed)
            case Sent(_) => Enabled(c, s, RecordSuccess)
  {
    hide Execute, Init, ValidStart, StreamsOk, DeviceOk, OwnerOk;
    Reachable(c, initial, steps);
    hide Membership.Inv;
  }

  /** So can the streams: any running receiver may stop, any bytes written may arrive, and any frame that
      arrived may be handled. */
  lemma StreamsGoOn(c: Config, initial: seq<int>, steps: seq<Step>, i: nat, upTo: nat, deviceOk: bool)
    requires ValidStart(c, initial) && i < |Execute(c, Init(c, initial), steps).streams|
    ensures var s := Execute(c, Init(c, initial), steps);
            var st := s.streams[i];
            && (st.receiver.Running? ==> Enabled(c, s, StopReceiver(i)))
            && (st.arrived <= upTo <= |st.log| ==> Enabled(c, s, Arrive(i, upTo)))
            && st.consumed <= st.arrived <= |st.log|
            && (st.serving && NextFrame(st).Frame? ==> Enabled(c, s, Handle(i, deviceOk)))
            && Enabled(c, s, StopHandler(i))
  {
    hide Execute, Init, ValidStart, DeviceOk, OwnerOk, JoinedOk, CountsOk, CommitOk, TornOk, LogOk;
    hide NextFrame, HasId, EncodeAll, Allowed, DeliveredBy;
    Reachable(c, initial, steps);
    hide Membership.Inv;
    assert StreamOk(c, Execute(c, Init(c, initial), steps), i);
  }

  /** And the reconnect loops of the client, and the handlers of the server: each may take its next step,
      and a loop that watches dials exactly if its id is missing. */
  lemma LoopsGoOn(c: Config, initial: seq<int>, steps: seq<Step>, id: int)
    requires ValidStart(c, initial)
    ensures var s := Execute(c, Init(c, initial), steps);
            && (c.role.Server? ==> Enabled(c, s, Accept(id)))
            && (c.role.Client? && id in s.reconnect ==>
                  match s.reconnect[id]
                  case Watching => Enabled(c, s, CheckMissing(id)) <==> !HasId(s.active, id)
                  case Dialing => Enabled(c, s, DialFails(id)) && Enabled(c, s, DialSucceeds(id))
                  case Dialed(_) => Enabled(c, s, Join(id))
                  case Added(_) => Enabled(c, s, StartReceiver(id)))
  {
    hide Execute, Init, ValidStart, HasId, HasStream;
    Membership.Reachable(c, initial, steps);
    var s := Execute(c, Init(c, initial), steps);
    if id in s.reconnect {
      assert Membership.LoopOk(s, id, s.reconnect[id]);
    }
  }
}
