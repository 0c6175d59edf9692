/** The packet pump as an interleaved step system: one sender, one receiver per stream, one reconnect
    loop per configured path id and one handler per stream at the far end. Each step is one
    mutex-protected method, one Write call, one dial, or one frame handled; any step may come next.

    The Client role is sendTUNPackets with failover and reconnection; the Server role is
    forwardDevicePackets, which accepts streams instead of dialling them and does not retry. */
module Protocol {
  import opened Bytes
  import opened Framing
  import opened PathSet
  import opened Policy

  datatype Role = Client | Server

  datatype Config = Config(role: Role, ids: set<int>, sendPolicy: PacketPolicy, receivePolicy: PacketPolicy)

  /** Where the sender stands with the packet it read last. */
  datatype Sender =
    | Idle
    | Routing
    | Writing(path: Path)      // path chosen, nothing written
    | HalfWritten(path: Path)  // header written
    | Failed(path: Path)       // a Write returned an error
    | Marked(path: Path)       // failure recorded, path not yet removed
    | Sent(path: Path)         // WriteFrame succeeded, success not yet recorded

  datatype Reconnect = Watching | Dialing | Dialed(stream: StreamId) | Added(stream: StreamId)

  datatype Receiver = NotStarted | Running | Stopped

  /** A packet number and how many bytes of its frame were accepted before a Write failed. */
  datatype Torn = Torn(packet: nat, taken: nat)

  /** One stream and its history. Its handle is its position in the list of all streams ever opened. */
  datatype Stream = Stream(
    id: int,
    log: seq<byte>,           // bytes accepted by Write
    committed: seq<nat>,      // numbers of the packets whose WriteFrame succeeded
    torn: Option<Torn>,       // the Write that failed
    receiver: Receiver,
    removals: nat,            // successful removals from the path set
    closes: nat,
    arrived: nat,             // bytes of the log that reached the far end
    consumed: nat,            // bytes its handler there has read
    frames: nat,              // frames that handler has dealt with
    serving: bool)

  /** A packet written to the far device, and where it came from. */
  datatype Delivery = Delivery(stream: StreamId, frame: nat, packet: Payload)

  datatype State = State(
    active: Paths,
    now: int,
    streams: seq<Stream>,
    sender: Sender,
    packets: seq<Payload>,     // nonempty packets read from the device so far
    owner: map<nat, StreamId>, // which stream a packet was committed to
    reconnect: map<int, Reconnect>,
    device: seq<Delivery>,     // packets written to the far device
    writes: nat,               // WriteFrame calls for the packet in hand
    allowance: nat,            // paths active when it was read, plus paths added since
    tx: nat,
    drops: nat)

  datatype Step =
    | Read(packet: Payload)
    | Pick(now: int)
    | WriteHeader(ok: bool, taken: nat)
    | WritePayload(ok: bool, taken: nat)
    | RecordFailure(now: int)
    | RemoveFailed
    | RecordSuccess
    | CheckMissing(id: int)
    | DialFails(id: int)
    | DialSucceeds(id: int)
    | Join(id: int)
    | StartReceiver(id: int)
    | Accept(id: int)
    | StopReceiver(stream: StreamId)
    | Arrive(stream: StreamId, upTo: nat)
    | Handle(stream: StreamId, deviceOk: bool)
    | StopHandler(stream: StreamId)

  function NewStream(id: int, receiver: Receiver): Stream {
    Stream(id, [], [], None, receiver, 0, 0, 0, 0, 0, true)
  }

  /** The state pumpTUN starts from, with these paths already dialled. */
  function Init(c: Config, initial: seq<int>): State {
    var paths := seq(|initial|, i requires 0 <= i < |initial| => Path(initial[i], i));
    var streams := seq(|initial|, i requires 0 <= i < |initial| => NewStream(initial[i], Running));
    State(New(paths), 0, streams, Idle, [], map[], map id | id in c.ids :: Watching, [], 0, 0, 0, 0)
  }

  predicate Known(s: State, stream: StreamId) {
    0 <= stream < |s.streams|
  }

  function Current(s: State): Payload
    requires s.packets != []
  {
    s.packets[|s.packets| - 1]
  }

  /** What the handler of this stream can decode from the bytes that arrived. */
  function NextFrame(st: Stream): Decoded
    requires st.consumed <= st.arrived <= |st.log|
  {
    DecodeFrame(st.log[st.consumed..st.arrived], Finished)
  }

  predicate Enabled(c: Config, s: State, step: Step) {
    match step
    case Read(packet) => s.sender.Idle? && ValidPayload(packet)
    case Pick(now) => s.sender.Routing? && now >= s.now
    case WriteHeader(ok, taken) =>
      s.sender.Writing? && Known(s, s.sender.path.stream) && s.packets != [] && ValidPayload(Current(s))
      && taken <= HEADER_SIZE
    case WritePayload(ok, taken) =>
      s.sender.HalfWritten? && Known(s, s.sender.path.stream) && s.packets != [] && taken < |Current(s)|
    case RecordFailure(now) => c.role.Client? && s.sender.Failed? && now >= s.now
    case RemoveFailed =>
      (if c.role.Client? then s.sender.Marked? else s.sender.Failed?) && Known(s, s.sender.path.stream)
    case RecordSuccess => s.sender.Sent?
    case CheckMissing(id) =>
      c.role.Client? && id in s.reconnect && s.reconnect[id].Watching? && !HasId(s.active, id)
    case DialFails(id) => id in s.reconnect && s.reconnect[id].Dialing?
    case DialSucceeds(id) => id in s.reconnect && s.reconnect[id].Dialing?
    case Join(id) => id in s.reconnect && s.reconnect[id].Dialed?
    case StartReceiver(id) => id in s.reconnect && s.reconnect[id].Added? && Known(s, s.reconnect[id].stream)
    case Accept(id) => c.role.Server?
    case StopReceiver(stream) => Known(s, stream) && s.streams[stream].receiver.Running?
    case Arrive(stream, upTo) => Known(s, stream) && s.streams[stream].arrived <= upTo <= |s.streams[stream].log|
    case Handle(stream, _) =>
      Known(s, stream) && var st := s.streams[stream];
      st.serving && st.consumed <= st.arrived <= |st.log| && NextFrame(st).Frame?
    case StopHandler(stream) => Known(s, stream)
  }

  // ---- What each step does ----

  function Put(s: State, stream: StreamId, st: Stream): State
    requires Known(s, stream)
  {
    s.(streams := s.streams[stream := st])
  }

  /** Remove a stream from the path set; whoever removed it closes it (the server only at the end of its handler). */
  function Evict(s: State, stream: StreamId, closes: bool): State
    requires Known(s, stream)
  {
    var (active', removed) := Remove(s.active, stream);
    var st := s.streams[stream];
    if removed.None? then s else
    var gone := st.(removals := st.removals + 1, closes := if closes then st.closes + 1 else st.closes);
    Put(s, stream, gone).(active := active')
  }

  function CloseReplaced(s: State, replaced: Option<Path>): State {
    if replaced.None? || !Known(s, replaced.value.stream) then s else
    var st := s.streams[replaced.value.stream];
    Put(s, replaced.value.stream, st.(closes := st.closes + 1))
  }

  function DoRead(c: Config, s: State, packet: Payload): State {
    var t := s.(packets := s.packets + [packet]);
    if Allow(c.sendPolicy, packet) then t.(sender := Routing, writes := 0, allowance := |s.active.paths|)
    else t.(drops := s.drops + 1)
  }

  function DoPick(s: State, now: int): State {
    if s.active.paths == [] then s.(now := now, sender := Idle, drops := s.drops + 1)
    else
      var (active', path) := NextPath(s.active, now);
      s.(now := now, active := active', sender := Writing(path))
  }

  function DoWriteHeader(s: State, ok: bool, taken: nat): State
    requires s.sender.Writing? && Known(s, s.sender.path.stream) && s.packets != [] && ValidPayload(Current(s))
    requires taken <= HEADER_SIZE
  {
    var path := s.sender.path;
    var st, header := s.streams[path.stream], PutUint32(|Current(s)|);
    if ok then
      Put(s, path.stream, st.(log := st.log + header)).(sender := HalfWritten(path), writes := s.writes + 1)
    else
      Put(s, path.stream, st.(log := st.log + header[..taken], torn := Some(Torn(|s.packets| - 1, taken))))
        .(sender := Failed(path), writes := s.writes + 1)
  }

  function DoWritePayload(s: State, ok: bool, taken: nat): State
    requires s.sender.HalfWritten? && Known(s, s.sender.path.stream) && s.packets != [] && taken < |Current(s)|
  {
    var path, k := s.sender.path, |s.packets| - 1;
    var st := s.streams[path.stream];
    if ok then
      Put(s, path.stream, st.(log := st.log + Current(s), committed := st.committed + [k]))
        .(sender := Sent(path), owner := s.owner[k := path.stream])
    else
      Put(s, path.stream, st.(log := st.log + Current(s)[..taken], torn := Some(Torn(k, HEADER_SIZE + taken))))
        .(sender := Failed(path))
  }

  function DoRemoveFailed(c: Config, s: State): State
    requires Enabled(c, s, RemoveFailed)
  {
    var t := Evict(s, s.sender.path.stream, c.role.Client?);
    if c.role.Client? then t.(sender := Routing) else t.(sender := Idle, drops := s.drops + 1)
  }

  function DoRecordSuccess(c: Config, s: State): State
    requires s.sender.Sent?
  {
    s.(sender := Idle, tx := s.tx + 1,
       active := if c.role.Client? then MarkSuccess(s.active, s.sender.path.id) else s.active)
  }

  function DoJoin(s: State, id: int): State
    requires id in s.reconnect && s.reconnect[id].Dialed?
  {
    var stream := s.reconnect[id].stream;
    var (active', replaced) := Add(s.active, Path(id, stream));
    CloseReplaced(s, replaced)
      .(active := active', reconnect := s.reconnect[id := Added(stream)], allowance := s.allowance + 1)
  }

  function DoStopReceiver(c: Config, s: State, stream: StreamId): State
    requires Known(s, stream)
  {
    var t := Put(s, stream, s.streams[stream].(receiver := Stopped));
    var u := Evict(t, stream, c.role.Client?);
    if c.role.Client? then u else Put(u, stream, u.streams[stream].(closes := u.streams[stream].closes + 1))
  }

  function DoHandle(c: Config, s: State, stream: StreamId, deviceOk: bool): State
    requires Enabled(c, s, Handle(stream, deviceOk))
  {
    var st := s.streams[stream];
    var frame := NextFrame(st);
    var next := st.(consumed := st.arrived - |frame.rest|, frames := st.frames + 1);
    if !Allow(c.receivePolicy, frame.payload) then Put(s, stream, next)
    else if !deviceOk then Put(s, stream, st.(serving := false))
    else
      Put(s, stream, next)
        .(device := s.device + [Delivery(stream, st.frames, frame.payload)])
  }

  function Do(c: Config, s: State, step: Step): State
    requires Enabled(c, s, step)
  {
    match step
    case Read(packet) => DoRead(c, s, packet)
    case Pick(now) => DoPick(s, now)
    case WriteHeader(ok, taken) => DoWriteHeader(s, ok, taken)
    case WritePayload(ok, taken) => DoWritePayload(s, ok, taken)
    case RecordFailure(now) =>
      s.(now := now, active := MarkFailure(s.active, s.sender.path.id, now), sender := Marked(s.sender.path))
    case RemoveFailed => DoRemoveFailed(c, s)
    case RecordSuccess => DoRecordSuccess(c, s)
    case CheckMissing(id) => s.(reconnect := s.reconnect[id := Dialing])
    case DialFails(id) => s.(reconnect := s.reconnect[id := Watching])
    case DialSucceeds(id) =>
      s.(streams := s.streams + [NewStream(id, NotStarted)], reconnect := s.reconnect[id := Dialed(|s.streams|)])
    case Join(id) => DoJoin(s, id)
    case StartReceiver(id) =>
      var stream := s.reconnect[id].stream;
      Put(s, stream, s.streams[stream].(receiver := Running)).(reconnect := s.reconnect[id := Watching])
    case Accept(id) =>
      s.(streams := s.streams + [NewStream(id, Running)],
         active := s.active.(paths := s.active.paths + [Path(id, |s.streams|)]), allowance := s.allowance + 1)
    case StopReceiver(stream) => DoStopReceiver(c, s, stream)
    case Arrive(stream, upTo) => Put(s, stream, s.streams[stream].(arrived := upTo))
    case Handle(stream, deviceOk) => DoHandle(c, s, stream, deviceOk)
    case StopHandler(stream) => Put(s, stream, s.streams[stream].(serving := false))
  }

  /** Every finite run: any sequence of steps, those not enabled being skipped. */
  function Execute(c: Config, s: State, steps: seq<Step>): State {
    if steps == [] then s else
    var t := Execute(c, s, steps[..|steps| - 1]);
    if Enabled(c, t, steps[|steps| - 1]) then Do(c, t, steps[|steps| - 1]) else t
  }

  predicate Distinct<T(==)>(xs: seq<T>) {
    forall i, j | 0 <= i < j < |xs| :: xs[i] != xs[j]
  }

  /** The starts the program has: a client with at most one dialled path per id, or a server with none.
      `c.ids` are the ids that have a reconnect loop, none if reconnecting is off. */
  predicate ValidStart(c: Config, initial: seq<int>) {
    if c.role.Client? then Distinct(initial) else c.ids == {} && initial == []
  }
}
