/** The frame bookkeeping of libcamera/cameraHal.cpp: back pressure when the encoder is slow, and who owns
    each block of client memory. */
module CameraFrames {

  const PREVIEW_THROTTLE_THRESHOLD := 5
  const SOFT_DROP_THRESHOLD := 10
  const HARD_DROP_THRESHOLD := 14

  /** A camera_memory_t: its identity and the address of its data. */
  datatype Block = Block(id: nat, data: int)

  datatype Client = Nothing | Holds(block: Block)

  /** What request_memory (with getMemory before it) answers. */
  datatype Allocation = Refused | Granted(data: int)

  datatype Fate = Dropped | Sent | Lost

  /** One arrival of a video frame: in which recording, how many frames were queued, what became of it. */
  datatype Arrival = Arrival(recording: nat, queued: nat, fate: Fate)

  /** The device and the file's statics, and for the books: how many blocks were ever allocated, which
      were released in which order, every arrival, and which arrivals were given back to the driver. */
  datatype Camera = Camera(
    dataCallback: bool, timestampCallback: bool, requestMemory: bool,
    client: Client, sentFrames: seq<Block>,
    throttle: bool, previousDropped: bool, numDropped: nat,
    recording: nat, issued: nat, released: seq<nat>, arrivals: seq<Arrival>, returned: seq<nat>)

  datatype Event =
    | SetCallbacks(data: bool, timestamp: bool, memory: bool)
    | DataArrives(alloc: Allocation)
    | FrameArrives(frameAlloc: Allocation)
    | ReleaseRecordingFrame(address: int)
    | DisableMsgType(videoFrame: bool)
    | StartRecording
    | StopRecording
    | Release

  function Ids(bs: seq<Block>): (ids: seq<nat>)
    ensures |ids| == |bs|
  {
    seq(|bs|, i requires 0 <= i < |bs| => bs[i].id)
  }

  function ClientIds(c: Client): seq<nat> {
    if c.Holds? then [c.block.id] else []
  }

  // ---------------------------------------------------------------- what each callback does

  /** genClientData followed by the use of the block. */
  function OnData(c: Camera, alloc: Allocation): Camera {
    if c.dataCallback && c.requestMemory then
      var freed := c.(released := c.released + ClientIds(c.client), client := Nothing);
      if alloc.Refused? then freed
      else freed.(client := Holds(Block(c.issued, alloc.data)), issued := c.issued + 1)
    else c
  }

  predicate MustDrop(c: Camera) {
    (!c.previousDropped && |c.sentFrames| > SOFT_DROP_THRESHOLD) || |c.sentFrames| > HARD_DROP_THRESHOLD
  }

  function Arrived(c: Camera, fate: Fate): Camera {
    c.(arrivals := c.arrivals + [Arrival(c.recording, |c.sentFrames|, fate)])
  }

  function GivenBack(c: Camera): Camera {
    c.(returned := c.returned + [|c.arrivals|])
  }

  /** A frame is copied and posted to the client, if it wants frames and has memory. */
  function Posted(c: Camera, alloc: Allocation): Camera {
    if c.timestampCallback && c.requestMemory && alloc.Granted? then
      Arrived(GivenBack(c), Sent).(
        sentFrames := c.sentFrames + [Block(c.issued, alloc.data)], issued := c.issued + 1, previousDropped := false)
    else Arrived(c, Lost)
  }

  function OnFrame(c: Camera, alloc: Allocation): Camera {
    var c1 := c.(throttle := |c.sentFrames| > PREVIEW_THROTTLE_THRESHOLD);
    if MustDrop(c) then
      Arrived(GivenBack(c1.(previousDropped := true, numDropped := c.numDropped + 1)), Dropped)
    else Posted(c1, alloc)
  }

  /** The first sent frame at this address, or the number of frames. */
  function Find(bs: seq<Block>, address: int): (i: nat)
    ensures i <= |bs|
    ensures i < |bs| ==> bs[i].data == address
    ensures forall j :: 0 <= j < i ==> bs[j].data != address
  {
    if bs == [] || bs[0].data == address then 0 else 1 + Find(bs[1..], address)
  }

  function OnReleaseFrame(c: Camera, address: int): Camera {
    var i := Find(c.sentFrames, address);
    if address == 0 || i == |c.sentFrames| then c
    else c.(released := c.released + [c.sentFrames[i].id], sentFrames := c.sentFrames[..i] + c.sentFrames[i + 1..])
  }

  /** releaseCameraFrames */
  function ReleaseAll(c: Camera): Camera {
    c.(released := c.released + Ids(c.sentFrames), sentFrames := [])
  }

  function Step(c: Camera, e: Event): Camera {
    match e
    case SetCallbacks(data, timestamp, memory) =>
      c.(dataCallback := data, timestampCallback := timestamp, requestMemory := memory)
    case DataArrives(alloc) => OnData(c, alloc)
    case FrameArrives(alloc) => OnFrame(c, alloc)
    case ReleaseRecordingFrame(address) => OnReleaseFrame(c, address)
    case DisableMsgType(videoFrame) => if videoFrame then ReleaseAll(c) else c
    case StartRecording =>
      c.(numDropped := 0, previousDropped := false, throttle := false, recording := c.recording + 1)
    case StopRecording => c.(throttle := false)
    case Release =>
      var r := ReleaseAll(c);
      r.(released := r.released + ClientIds(c.client), client := Nothing)
  }

  function Run(c: Camera, es: seq<Event>): Camera
    decreases es
  {
    if es == [] then c else Run(Step(c, es[0]), es[1..])
  }

  /** A device just opened.  The drop state is in file statics and survives from the device before. */
  predicate Opened(c: Camera) {
    && c.client == Nothing && c.sentFrames == []
    && c.issued == 0 && c.released == [] && c.arrivals == [] && c.returned == []
  }

  // ---------------------------------------------------------------- invariants

  function UpTo(n: nat): (s: seq<nat>)
    ensures |s| == n && forall i :: 0 <= i < n ==> s[i] == i
  {
    if n == 0 then [] else UpTo(n - 1) + [n - 1]
  }

  ghost predicate Ledger(client: Client, sent: seq<Block>, released: seq<nat>, issued: nat) {
    multiset(ClientIds(client)) + multiset(Ids(sent)) + multiset(released) == multiset(UpTo(issued))
  }

  /** Every block ever allocated is in exactly one place: with the client, among the sent frames, or
      released; and nothing else is.  So nothing is released twice and nothing leaks. */
  ghost predicate Conserved(c: Camera) {
    Ledger(c.client, c.sentFrames, c.released, c.issued)
  }

  ghost predicate Bounded(c: Camera) {
    |c.sentFrames| <= HARD_DROP_THRESHOLD + 1
  }

  /** The drop policy as a statement about two arrivals in a row: nothing is dropped up to the soft
      threshold, everything is above the hard one, and between the two a frame is dropped if the one
      before it in the same recording was sent, and kept if that one was dropped. */
  predicate Fair(a: Arrival) {
    && (a.queued <= SOFT_DROP_THRESHOLD ==> a.fate != Dropped)
    && (a.queued > HARD_DROP_THRESHOLD ==> a.fate == Dropped)
  }

  predicate FairPair(a: Arrival, b: Arrival) {
    a.recording == b.recording && SOFT_DROP_THRESHOLD < b.queued <= HARD_DROP_THRESHOLD ==>
      (a.fate == Sent ==> b.fate == Dropped) && (a.fate == Dropped ==> b.fate != Dropped)
  }

  ghost predicate FollowsPolicy(arrivals: seq<Arrival>, recording: nat, previousDropped: bool) {
    && (forall i :: 0 <= i < |arrivals| ==> Fair(arrivals[i]) && arrivals[i].recording <= recording)
    && (forall i :: 0 <= i < |arrivals| - 1 ==> FairPair(arrivals[i], arrivals[i + 1]))
    && (arrivals != [] && arrivals[|arrivals| - 1].recording == recording ==>
          match arrivals[|arrivals| - 1].fate
          case Dropped => previousDropped
          case Sent => !previousDropped
          case Lost => true)
  }

  ghost predicate Policy(c: Camera) {
    FollowsPolicy(c.arrivals, c.recording, c.previousDropped)
  }

  /** The numbers of the arrivals that were dropped or sent on. */
  function Handled(arrivals: seq<Arrival>): (s: seq<nat>)
    ensures forall i :: 0 <= i < |s| ==> s[i] < |arrivals|
  {
    if arrivals == [] then []
    else
      var last := |arrivals| - 1;
      Handled(arrivals[..last]) + if arrivals[last].fate == Lost then [] else [last]
  }

  /** The driver got back each arriving frame once, in order, except those that were lost because no
      callback was set or no memory was granted. */
  ghost predicate Accounted(c: Camera) {
    c.returned == Handled(c.arrivals)
  }

  ghost predicate Invariant(c: Camera) {
    Conserved(c) && Bounded(c) && Policy(c) && Accounted(c)
  }

  lemma IdsConcat(a: seq<Block>, b: seq<Block>)
    ensures Ids(a + b) == Ids(a) + Ids(b)
  {
  }

  lemma RemovedId(bs: seq<Block>, i: nat)
    requires i < |bs|
    ensures multiset(Ids(bs)) == multiset(Ids(bs[..i] + bs[i + 1..])) + multiset{bs[i].id}
  {
    IdsConcat(bs[..i], bs[i + 1..]);
    IdsConcat(bs[..i], [bs[i]]);
    IdsConcat(bs[..i] + [bs[i]], bs[i + 1..]);
    assert bs == bs[..i] + [bs[i]] + bs[i + 1..];
    assert Ids([bs[i]]) == [bs[i].id];
  }

  lemma ClientReleased(client: Client, sent: seq<Block>, released: seq<nat>, issued: nat)
    requires Ledger(client, sent, released, issued)
    ensures Ledger(Nothing, sent, released + ClientIds(client), issued)
  {
  }

  lemma ClientGranted(sent: seq<Block>, released: seq<nat>, issued: nat, data: int)
    requires Ledger(Nothing, sent, released, issued)
    ensures Ledger(Holds(Block(issued, data)), sent, released, issued + 1)
  {
    assert UpTo(issued + 1) == UpTo(issued) + [issued];
  }

  lemma FrameGranted(client: Client, sent: seq<Block>, released: seq<nat>, issued: nat, data: int)
    requires Ledger(client, sent, released, issued)
    ensures Ledger(client, sent + [Block(issued, data)], released, issued + 1)
  {
    IdsConcat(sent, [Block(issued, data)]);
    assert Ids([Block(issued, data)]) == [issued];
    assert UpTo(issued + 1) == UpTo(issued) + [issued];
  }

  lemma FrameReleased(client: Client, sent: seq<Block>, released: seq<nat>, issued: nat, i: nat)
    requires Ledger(client, sent, released, issued) && i < |sent|
    ensures Ledger(client, sent[..i] + sent[i + 1..], released + [sent[i].id], issued)
  {
    RemovedId(sent, i);
  }

  lemma FramesReleased(client: Client, sent: seq<Block>, released: seq<nat>, issued: nat)
    requires Ledger(client, sent, released, issued)
    ensures Ledger(client, [], released + Ids(sent), issued)
  {
    assert Ids([]) == [];
  }

  lemma DataConserves(c: Camera, alloc: Allocation)
    requires Conserved(c)
    ensures Conserved(OnData(c, alloc))
  {
    hide Ledger, Ids, ClientIds;
    if c.dataCallback && c.requestMemory {
      ClientReleased(c.client, c.sentFrames, c.released, c.issued);
      if alloc.Granted? {
        ClientGranted(c.sentFrames, c.released + ClientIds(c.client), c.issued, alloc.data);
      }
    }
  }

  lemma FrameConserves(c: Camera, alloc: Allocation)
    requires Conserved(c)
    ensures Conserved(OnFrame(c, alloc))
  {
    hide Ledger;
    if alloc.Granted? {
      FrameGranted(c.client, c.sentFrames, c.released, c.issued, alloc.data);
    }
  }

  lemma ReleaseFrameConserves(c: Camera, address: int)
    requires Conserved(c)
    ensures Conserved(OnReleaseFrame(c, address))
  {
    hide Ledger, Find;
    var i := Find(c.sentFrames, address);
    if i < |c.sentFrames| {
      FrameReleased(c.client, c.sentFrames, c.released, c.issued, i);
    }
  }

  lemma StepConserves(c: Camera, e: Event)
    requires Conserved(c)
    ensures Conserved(Step(c, e))
  {
    hide Ledger, Ids, ClientIds, OnData, OnFrame, OnReleaseFrame;
    match e
    case DataArrives(alloc) => DataConserves(c, alloc);
    case FrameArrives(alloc) => FrameConserves(c, alloc);
    case ReleaseRecordingFrame(address) => ReleaseFrameConserves(c, address);
    case _ =>
      FramesReleased(c.client, c.sentFrames, c.released, c.issued);
      ClientReleased(c.client, [], c.released + Ids(c.sentFrames), c.issued);
  }

  lemma ArrivalIsFair(c: Camera, alloc: Allocation)
    requires Policy(c)
    ensures var a := OnFrame(c, alloc).arrivals[|c.arrivals|];
            && OnFrame(c, alloc).arrivals == c.arrivals + [a]
            && a.recording == c.recording && Fair(a)
            && (c.arrivals != [] ==> FairPair(c.arrivals[|c.arrivals| - 1], a))
            && match a.fate
               case Dropped => OnFrame(c, alloc).previousDropped
               case Sent => !OnFrame(c, alloc).previousDropped
               case Lost => true
  {
  }

  lemma ArrivalKeepsPolicy(c: Camera, alloc: Allocation)
    requires Policy(c)
    ensures Policy(OnFrame(c, alloc))
  {
    ArrivalIsFair(c, alloc);
    var c', n := OnFrame(c, alloc), |c.arrivals|;
    assert c'.recording == c.recording;
    hide OnFrame, Fair, FairPair;
    forall i | 0 <= i < |c'.arrivals| ensures Fair(c'.arrivals[i]) && c'.arrivals[i].recording <= c'.recording {
      assert i < n ==> c'.arrivals[i] == c.arrivals[i];
    }
    forall i | 0 <= i < |c'.arrivals| - 1 ensures FairPair(c'.arrivals[i], c'.arrivals[i + 1]) {
      assert c'.arrivals[i] == c.arrivals[i];
      assert i + 1 < n ==> c'.arrivals[i + 1] == c.arrivals[i + 1];
    }
  }

  lemma HandledSnoc(arrivals: seq<Arrival>, a: Arrival)
    ensures Handled(arrivals + [a]) == Handled(arrivals) + if a.fate == Lost then [] else [|arrivals|]
  {
    assert (arrivals + [a])[..|arrivals|] == arrivals;
  }

  /** What an arriving frame adds to the books of arrivals. */
  lemma ArrivalBooked(c: Camera, alloc: Allocation)
    ensures var c' := OnFrame(c, alloc);
            exists fate :: c'.arrivals == c.arrivals + [Arrival(c.recording, |c.sentFrames|, fate)]
                           && c'.returned == if fate == Lost then c.returned else c.returned + [|c.arrivals|]
  {
    var c' := OnFrame(c, alloc);
    var fate := c'.arrivals[|c.arrivals|].fate;
    assert c'.arrivals == c.arrivals + [Arrival(c.recording, |c.sentFrames|, fate)];
  }

  lemma ArrivalIsAccounted(c: Camera, alloc: Allocation)
    requires Accounted(c)
    ensures Accounted(OnFrame(c, alloc))
  {
    ArrivalBooked(c, alloc);
    hide OnFrame, Handled;
    var c' := OnFrame(c, alloc);
    var fate :| c'.arrivals == c.arrivals + [Arrival(c.recording, |c.sentFrames|, fate)]
                && c'.returned == if fate == Lost then c.returned else c.returned + [|c.arrivals|];
    HandledSnoc(c.arrivals, Arrival(c.recording, |c.sentFrames|, fate));
    assert Handled(c.arrivals) + [] == Handled(c.arrivals);
  }

  lemma NewRecording(arrivals: seq<Arrival>, recording: nat, previousDropped: bool)
    requires FollowsPolicy(arrivals, recording, previousDropped)
    ensures FollowsPolicy(arrivals, recording + 1, false)
  {
  }

  /** Only an arriving frame touches the books of arrivals or lengthens the backlog. */
  lemma OtherEvents(c: Camera, e: Event)
    requires !e.FrameArrives?
    ensures var c' := Step(c, e);
            && c'.arrivals == c.arrivals && c'.returned == c.returned && |c'.sentFrames| <= |c.sentFrames|
            && (if e.StartRecording? then c'.recording == c.recording + 1 && !c'.previousDropped
                else c'.recording == c.recording && c'.previousDropped == c.previousDropped)
  {
    hide Ids, ClientIds, Find;
    if e.ReleaseRecordingFrame? { OneFrameLess(c, e.address); }
  }

  lemma OneFrameLess(c: Camera, address: int)
    ensures |OnReleaseFrame(c, address).sentFrames| <= |c.sentFrames|
  {
    hide Find;
    var i := Find(c.sentFrames, address);
    assert i < |c.sentFrames| ==> |c.sentFrames[..i] + c.sentFrames[i + 1..]| == |c.sentFrames| - 1;
  }

  lemma StepKeepsInvariant(c: Camera, e: Event)
    requires Invariant(c)
    ensures Invariant(Step(c, e))
  {
    hide Conserved, FollowsPolicy, Handled;
    StepConserves(c, e);
    if e.FrameArrives? {
      ArrivalKeepsPolicy(c, e.frameAlloc);
      ArrivalIsAccounted(c, e.frameAlloc);
      hide Policy, Accounted;
    } else {
      OtherEvents(c, e);
      NewRecording(c.arrivals, c.recording, c.previousDropped);
      hide Step;
    }
  }

  /** Over every run of callbacks and client calls: the backlog stays within 15, no block is lost or
      released twice, the drop policy holds of every arrival, and the driver gets its frames back once. */
  lemma {:induction false} EveryRunKeepsInvariant(c: Camera, es: seq<Event>)
    requires Invariant(c) || Opened(c)
    ensures Invariant(Run(c, es))
    decreases es
  {
    if Opened(c) {
      assert Ids([]) == [];
    }
    if es != [] {
      StepKeepsInvariant(c, es[0]);
      EveryRunKeepsInvariant(Step(c, es[0]), es[1..]);
    }
  }

  /** After camera_release every block ever allocated has been released, each once. */
  lemma ReleaseReleasesAll(c: Camera, es: seq<Event>)
    requires Opened(c)
    ensures var r := Step(Run(c, es), Release);
            multiset(r.released) == multiset(UpTo(r.issued)) && r.client == Nothing && r.sentFrames == []
  {
    EveryRunKeepsInvariant(c, es);
    ReleaseEmpties(Run(c, es));
  }

  lemma ReleaseEmpties(c: Camera)
    requires Conserved(c)
    ensures var r := Step(c, Release);
            multiset(r.released) == multiset(UpTo(r.issued)) && r.client == Nothing && r.sentFrames == []
  {
    hide Ids, UpTo;
    StepConserves(c, Release);
    EmptyLedger(Step(c, Release).released, c.issued);
  }

  lemma EmptyLedger(released: seq<nat>, issued: nat)
    ensures Ledger(Nothing, [], released, issued) ==> multiset(released) == multiset(UpTo(issued))
  {
    assert Ids([]) == [];
  }

  lemma {:induction false} NoneLost(arrivals: seq<Arrival>)
    requires forall i :: 0 <= i < |arrivals| ==> arrivals[i].fate != Lost
    ensures Handled(arrivals) == UpTo(|arrivals|)
  {
    if arrivals != [] {
      NoneLost(arrivals[..|arrivals| - 1]);
    }
  }

  /** How many frames arrive. */
  function Frames(es: seq<Event>): nat
    decreases es
  {
    if es == [] then 0 else (if es[0].FrameArrives? then 1 else 0) + Frames(es[1..])
  }

  /** Whenever a frame arrives, the client's callbacks are set and it grants memory. */
  predicate Served(timestampCallback: bool, requestMemory: bool, es: seq<Event>)
    decreases es
  {
    es == [] ||
    match es[0]
    case SetCallbacks(_, timestamp, memory) => Served(timestamp, memory, es[1..])
    case FrameArrives(alloc) =>
      timestampCallback && requestMemory && alloc.Granted? && Served(timestampCallback, requestMemory, es[1..])
    case _ => Served(timestampCallback, requestMemory, es[1..])
  }

  ghost predicate NoLoss(c: Camera) {
    forall i :: 0 <= i < |c.arrivals| ==> c.arrivals[i].fate != Lost
  }

  lemma {:induction false} ServedLosesNone(c: Camera, es: seq<Event>)
    requires Served(c.timestampCallback, c.requestMemory, es) && NoLoss(c)
    ensures NoLoss(Run(c, es)) && |Run(c, es).arrivals| == |c.arrivals| + Frames(es)
    decreases es
  {
    if es != [] {
      var e := es[0];
      if e.FrameArrives? { ServedFrame(c, e.frameAlloc); } else { OtherEvents(c, e); }
      assert e.SetCallbacks? || (Step(c, e).timestampCallback == c.timestampCallback
                                 && Step(c, e).requestMemory == c.requestMemory);
      hide OnFrame, OnData, OnReleaseFrame;
      ServedLosesNone(Step(c, e), es[1..]);
    }
  }

  lemma ServedFrame(c: Camera, alloc: Allocation)
    requires c.timestampCallback && c.requestMemory && alloc.Granted? && NoLoss(c)
    ensures NoLoss(OnFrame(c, alloc)) && |OnFrame(c, alloc).arrivals| == |c.arrivals| + 1
  {
  }

  /** With the callbacks set and memory granted whenever a frame arrives, the driver gets back every frame
      that arrived, once and in order, whether it was sent on or dropped. */
  lemma EveryFrameReturned(c: Camera, es: seq<Event>)
    requires Opened(c) && Served(c.timestampCallback, c.requestMemory, es)
    ensures Run(c, es).returned == UpTo(Frames(es))
  {
    hide Step, Run, Handled, UpTo;
    ServedLosesNone(c, es);
    EveryRunKeepsInvariant(c, es);
    NoneLost(Run(c, es).arrivals);
  }

  // ---------------------------------------------------------------- what a client can rely on

  /** Releasing a frame: the first sent frame at that address, and it alone, is released, and the others stay
      queued in their order.  At the null address, or one where no frame was sent, nothing happens. */
  lemma ReleaseIsOfFirstMatch(c: Camera, address: int, before: seq<Block>, b: Block, behind: seq<Block>)
    ensures var c' := Step(c, ReleaseRecordingFrame(address));
            && (c.sentFrames == before + [b] + behind && b.data == address != 0
                && (forall i :: 0 <= i < |before| ==> before[i].data != address) ==>
                  c' == c.(sentFrames := before + behind, released := c.released + [b.id]))
            && (address == 0 || (forall i :: 0 <= i < |c.sentFrames| ==> c.sentFrames[i].data != address) ==> c' == c)
  {
    var sent, i := c.sentFrames, Find(c.sentFrames, address);
    if sent == before + [b] + behind && b.data == address
       && forall k :: 0 <= k < |before| ==> before[k].data != address {
      assert sent[|before|] == b && forall k :: 0 <= k < |before| ==> sent[k] == before[k];
      assert i == |before| && sent[..i] == before && sent[i + 1..] == behind;
    }
  }

  /** Disabling video frames releases every queued frame, oldest first, and leaves none. */
  lemma DisablingEmptiesQueue(c: Camera, i: nat)
    requires i < |c.sentFrames|
    ensures var c' := Step(c, DisableMsgType(true));
            && c'.sentFrames == [] && c.released <= c'.released && |c'.released| == |c.released| + |c.sentFrames|
            && c'.released[|c.released| + i] == c.sentFrames[i].id && c'.client == c.client
            && Step(c, DisableMsgType(false)) == c
  {
  }

  /** After a data callback that is wanted, by the callbacks set last, the client holds the new block if memory
      was granted, else none, and the one it held before is released; one that is not wanted changes nothing. */
  lemma DataReachesClient(c: Camera, data: bool, timestamp: bool, memory: bool, alloc: Allocation)
    ensures var set1 := Step(c, SetCallbacks(data, timestamp, memory));
            var c' := Step(set1, DataArrives(alloc));
            && c'.sentFrames == c.sentFrames && set1.client == c.client
            && (!data || !memory ==> c' == set1)
            && (data && memory ==>
                  && c'.client == (if alloc.Granted? then Holds(Block(c.issued, alloc.data)) else Nothing)
                  && c'.released == (if c.client.Holds? then c.released + [c.client.block.id] else c.released))
  {
    assert c.released + [] == c.released;
  }

  /** What a client has been sent and not released, by address. */
  datatype Desk = Desk(held: seq<int>, timestampCallback: bool, requestMemory: bool)

  function WithoutFirst(xs: seq<int>, x: int): seq<int> {
    if xs == [] then [] else if xs[0] == x then xs[1..] else [xs[0]] + WithoutFirst(xs[1..], x)
  }

  /** The client's own account of an event, as if nothing were ever dropped. */
  function Kept(d: Desk, e: Event): Desk {
    match e
    case SetCallbacks(_, timestamp, memory) => Desk(d.held, timestamp, memory)
    case FrameArrives(Granted(data)) =>
      if d.timestampCallback && d.requestMemory then d.(held := d.held + [data]) else d
    case ReleaseRecordingFrame(address) => if address == 0 then d else d.(held := WithoutFirst(d.held, address))
    case DisableMsgType(true) => d.(held := [])
    case Release => d.(held := [])
    case _ => d
  }

  function KeptAll(d: Desk, es: seq<Event>): Desk
    decreases es
  {
    if es == [] then d else KeptAll(Kept(d, es[0]), es[1..])
  }

  /** The client never holds more than ten frames when another arrives. */
  predicate Prompt(d: Desk, es: seq<Event>)
    decreases es
  {
    es == [] || ((es[0].FrameArrives? ==> |d.held| <= 10) && Prompt(Kept(d, es[0]), es[1..]))
  }

  function Addresses(bs: seq<Block>): (s: seq<int>)
    ensures |s| == |bs|
  {
    seq(|bs|, i requires 0 <= i < |bs| => bs[i].data)
  }

  function DeskOf(c: Camera): Desk {
    Desk(Addresses(c.sentFrames), c.timestampCallback, c.requestMemory)
  }

  lemma {:induction false} FirstIsTaken(xs: seq<int>, x: int, i: nat)
    requires i <= |xs| && x !in xs[..i] && (i < |xs| ==> xs[i] == x)
    ensures WithoutFirst(xs, x) == if i == |xs| then xs else xs[..i] + xs[i + 1..]
  {
    if xs != [] && i > 0 {
      var rest := xs[1..];
      assert xs[..i] == [xs[0]] + rest[..i - 1] && xs[i..] == rest[i - 1..];
      assert xs[0] in xs[..i];
      FirstIsTaken(rest, x, i - 1);
      WithoutLater(xs, x);
      hide WithoutFirst;
      if i < |xs| {
        assert xs[i + 1..] == rest[i..];
        assert [xs[0]] + (rest[..i - 1] + rest[i..]) == xs[..i] + xs[i + 1..];
      }
    }
  }

  lemma WithoutLater(xs: seq<int>, x: int)
    requires xs != [] && xs[0] != x
    ensures WithoutFirst(xs, x) == [xs[0]] + WithoutFirst(xs[1..], x)
  {
  }

  lemma FirstGoes(bs: seq<Block>, address: int)
    ensures var i := Find(bs, address);
            var rest := if i == |bs| then bs else bs[..i] + bs[i + 1..];
            WithoutFirst(Addresses(bs), address) == Addresses(rest)
  {
    var i := Find(bs, address);
    FirstIsTaken(Addresses(bs), address, i);
    hide WithoutFirst, Find;
    if i < |bs| {
      assert Addresses(bs)[..i] + Addresses(bs)[i + 1..] == Addresses(bs[..i] + bs[i + 1..]);
    }
  }

  /** As long as the client is prompt, its account is right. */
  lemma DeskFollows(c: Camera, e: Event)
    requires e.FrameArrives? ==> |c.sentFrames| <= 10
    ensures DeskOf(Step(c, e)) == Kept(DeskOf(c), e)
  {
    match e
    case FrameArrives(alloc) =>
      var sent, now := c.sentFrames, Step(c, e).sentFrames;
      assert alloc.Granted? ==> Addresses(sent + [Block(c.issued, alloc.data)]) == Addresses(sent) + [alloc.data];
    case ReleaseRecordingFrame(address) =>
      FirstGoes(c.sentFrames, address);
    case _ =>
  }

  /** What became of the frames that arrived in a run. */
  ghost predicate NoneDropped(arrivals: seq<Arrival>, since: nat) {
    forall i :: since <= i < |arrivals| ==> arrivals[i].fate != Dropped
  }

  lemma PromptArrival(c: Camera, e: Event)
    requires e.FrameArrives? ==> |c.sentFrames| <= 10
    ensures c.arrivals <= Step(c, e).arrivals && NoneDropped(Step(c, e).arrivals, |c.arrivals|)
  {
    if !e.FrameArrives? {
      OtherEvents(c, e);
    }
  }

  /** A client that never holds more than ten frames when another arrives never sees one dropped, and its own
      account of the frames it holds is the device's. */
  lemma {:induction false} PromptClientSeesNoDrop(c: Camera, es: seq<Event>)
    requires Prompt(DeskOf(c), es)
    ensures var r := Run(c, es);
            && c.arrivals <= r.arrivals && NoneDropped(r.arrivals, |c.arrivals|)
            && DeskOf(r) == KeptAll(DeskOf(c), es)
    decreases es
  {
    if es != [] {
      var c' := Step(c, es[0]);
      PromptArrival(c, es[0]);
      DeskFollows(c, es[0]);
      hide Step, DeskOf, Kept;
      PromptClientSeesNoDrop(c', es[1..]);
    }
  }

  function DropsOf(arrivals: seq<Arrival>, recording: nat): nat {
    if arrivals == [] then 0
    else
      var a := arrivals[|arrivals| - 1];
      DropsOf(arrivals[..|arrivals| - 1], recording) + if a.recording == recording && a.fate == Dropped then 1 else 0
  }

  /** The counter logged at the end of a recording is the number of its frames that were dropped. */
  ghost predicate Counted(c: Camera) {
    && (c.recording > 0 ==> c.numDropped == DropsOf(c.arrivals, c.recording))
    && (forall i :: 0 <= i < |c.arrivals| ==> c.arrivals[i].recording <= c.recording)
  }

  lemma {:induction false} NoneYet(arrivals: seq<Arrival>, recording: nat)
    requires forall i :: 0 <= i < |arrivals| ==> arrivals[i].recording < recording
    ensures DropsOf(arrivals, recording) == 0
  {
    if arrivals != [] {
      NoneYet(arrivals[..|arrivals| - 1], recording);
    }
  }

  lemma DropsSnoc(arrivals: seq<Arrival>, a: Arrival, recording: nat)
    ensures DropsOf(arrivals + [a], recording)
         == DropsOf(arrivals, recording) + if a.recording == recording && a.fate == Dropped then 1 else 0
  {
    assert (arrivals + [a])[..|arrivals|] == arrivals;
  }

  lemma FrameCounts(c: Camera, alloc: Allocation)
    ensures var c' := OnFrame(c, alloc);
            && |c'.arrivals| == |c.arrivals| + 1 && c'.recording == c.recording
            && var a := c'.arrivals[|c.arrivals|];
               && c'.arrivals == c.arrivals + [a] && a.recording == c.recording
               && c'.numDropped == c.numDropped + if a.fate == Dropped then 1 else 0
  {
  }

  lemma ArrivalCounted(c: Camera, alloc: Allocation)
    requires Counted(c)
    ensures Counted(OnFrame(c, alloc))
  {
    FrameCounts(c, alloc);
    hide OnFrame, DropsOf;
    var c' := OnFrame(c, alloc);
    DropsSnoc(c.arrivals, c'.arrivals[|c.arrivals|], c.recording);
  }

  lemma OtherCounted(c: Camera, e: Event)
    requires Counted(c) && !e.FrameArrives?
    ensures Counted(Step(c, e))
  {
    hide DropsOf, Find;
    NoneYet(c.arrivals, c.recording + 1);
  }

  lemma {:induction false} EveryRunCounts(c: Camera, es: seq<Event>)
    requires Counted(c)
    ensures Counted(Run(c, es))
    decreases es
  {
    if es != [] {
      var e := es[0];
      if e.FrameArrives? { ArrivalCounted(c, e.frameAlloc); } else { OtherCounted(c, e); }
      hide OnFrame, OnData, OnReleaseFrame, ReleaseAll, Counted;
      EveryRunCounts(Step(c, e), es[1..]);
    }
  }

  /** The preview is throttled exactly between an arrival at more than five queued frames and the next one at
      fewer, or the start or the end of a recording. */
  lemma ThrottledIff(c: Camera, e: Event)
    ensures Step(c, e).throttle <==> match e
                                     case FrameArrives(_) => |c.sentFrames| > 5
                                     case StartRecording => false
                                     case StopRecording => false
                                     case _ => c.throttle
  {
  }

  // ---------------------------------------------------------------- the device

  class Device {
    var dataCallback: bool
    var timestampCallback: bool
    var requestMemory: bool
    var clientData: Client
    var sentFrames: seq<Block>
    // File statics of the source.
    var mThrottlePreview: bool
    var mPreviousVideoFrameDropped: bool
    var mNumVideoFramesDropped: nat
    // The books.
    ghost var recording: nat
    var issued: nat
    ghost var released: seq<nat>
    ghost var arrivals: seq<Arrival>
    ghost var returned: seq<nat>

    ghost function Books(): Camera
      reads this
    {
      Camera(dataCallback, timestampCallback, requestMemory, clientData, sentFrames, mThrottlePreview,
             mPreviousVideoFrameDropped, mNumVideoFramesDropped, recording, issued, released, arrivals, returned)
    }

    constructor (throttled: bool, dropped: bool, numDropped: nat)
      ensures Opened(Books())
      ensures mThrottlePreview == throttled && mPreviousVideoFrameDropped == dropped
      ensures mNumVideoFramesDropped == numDropped
    {
      dataCallback, timestampCallback, requestMemory := false, false, false;
      clientData, sentFrames := Nothing, [];
      mThrottlePreview, mPreviousVideoFrameDropped, mNumVideoFramesDropped := throttled, dropped, numDropped;
      recording, issued, released, arrivals, returned := 0, 0, [], [], [];
    }

    /** The client's release function, called on a block of its own. */
    ghost method ReleaseBlock(id: nat)
      modifies this`released
      ensures released == old(released) + [id]
    {
      released := released + [id];
    }

    // genClientData
    method GenClientData(alloc: Allocation) returns (mem: Client)
      modifies this`issued
      ensures mem == if alloc.Refused? then Nothing else Holds(Block(old(issued), alloc.data))
      ensures issued == if alloc.Refused? then old(issued) else old(issued) + 1
    {
      if alloc.Refused? {
        return Nothing;
      }
      mem := Holds(Block(issued, alloc.data));
      issued := issued + 1;
    }

    // dataCallback
    method OnDataCallback(alloc: Allocation)
      modifies this
      ensures Books() == Step(old(Books()), DataArrives(alloc))
    {
      if dataCallback && requestMemory {
        if clientData.Holds? {
          ReleaseBlock(clientData.block.id);
        }
        clientData := GenClientData(alloc);
      }
      assert released == old(released) || released == old(released) + ClientIds(old(clientData));
      assert old(released) + [] == old(released);
    }

    // dataTimestampCallback
    method OnTimestampCallback(alloc: Allocation)
      modifies this
      ensures Books() == OnFrame(old(Books()), alloc)
    {
      hide Posted, Arrived, GivenBack;
      var framesSent := |sentFrames|;
      if framesSent > PREVIEW_THROTTLE_THRESHOLD {
        mThrottlePreview := true;
        if (!mPreviousVideoFrameDropped && framesSent > SOFT_DROP_THRESHOLD) || framesSent > HARD_DROP_THRESHOLD {
          DropFrame();
          return;
        }
      } else {
        mThrottlePreview := false;
      }
      PostFrame(alloc);
    }

    // The frame goes back to the driver at once.
    method DropFrame()
      modifies this
      ensures var c := old(Books());
              Books() == Arrived(GivenBack(c.(previousDropped := true, numDropped := c.numDropped + 1)), Dropped)
    {
      mPreviousVideoFrameDropped := true;
      mNumVideoFramesDropped := mNumVideoFramesDropped + 1;
      returned := returned + [|arrivals|];
      arrivals := arrivals + [Arrival(recording, |sentFrames|, Dropped)];
    }

    // The frame is copied and posted to the client, and then goes back to the driver.
    method PostFrame(alloc: Allocation)
      modifies this
      ensures Books() == Posted(old(Books()), alloc)
    {
      ghost var queued := |sentFrames|;
      if timestampCallback && requestMemory {
        var mem := GenClientData(alloc);
        if mem.Holds? {
          sentFrames := sentFrames + [mem.block];
          returned := returned + [|arrivals|];
          arrivals := arrivals + [Arrival(recording, queued, Sent)];
          if mPreviousVideoFrameDropped {
            mPreviousVideoFrameDropped := false;
          }
          return;
        }
      }
      arrivals := arrivals + [Arrival(recording, queued, Lost)];
    }

    // releaseCameraFrames
    method ReleaseCameraFrames()
      modifies this
      ensures Books() == ReleaseAll(old(Books()))
    {
      var it := 0;
      while it < |sentFrames|
        invariant 0 <= it <= |sentFrames|
        invariant Books() == old(Books()).(released := old(released) + Ids(sentFrames)[..it])
      {
        ReleaseBlock(sentFrames[it].id);
        it := it + 1;
      }
      assert Ids(sentFrames)[..it] == Ids(sentFrames);
      sentFrames := [];
    }

    // camera_release_recording_frame
    method ReleaseRecordingFrame(address: int)
      modifies this
      ensures Books() == Step(old(Books()), Event.ReleaseRecordingFrame(address))
    {
      if address != 0 {
        var it := 0;
        while it < |sentFrames|
          invariant 0 <= it <= |sentFrames| && Books() == old(Books())
          invariant forall j :: 0 <= j < it ==> sentFrames[j].data != address
        {
          if sentFrames[it].data == address {
            ReleaseBlock(sentFrames[it].id);
            sentFrames := sentFrames[..it] + sentFrames[it + 1..];
            return;
          }
          it := it + 1;
        }
      }
    }

    // camera_set_callbacks
    method SetCallbacks(data: bool, timestamp: bool, memory: bool)
      modifies this
      ensures Books() == Step(old(Books()), Event.SetCallbacks(data, timestamp, memory))
    {
      dataCallback := data;
      timestampCallback := timestamp;
      requestMemory := memory;
    }

    // camera_disable_msg_type
    method DisableMsgType(videoFrame: bool)
      modifies this
      ensures Books() == Step(old(Books()), Event.DisableMsgType(videoFrame))
    {
      if videoFrame {
        ReleaseCameraFrames();
      }
    }

    // camera_start_recording
    method StartRecording()
      modifies this
      ensures Books() == Step(old(Books()), Event.StartRecording)
    {
      mNumVideoFramesDropped := 0;
      mPreviousVideoFrameDropped := false;
      mThrottlePreview := false;
      recording := recording + 1;
    }

    // camera_stop_recording
    method StopRecording()
      modifies this
      ensures Books() == Step(old(Books()), Event.StopRecording)
    {
      mThrottlePreview := false;
    }

    // camera_release
    method Release()
      modifies this
      ensures Books() == Step(old(Books()), Event.Release)
    {
      ReleaseCameraFrames();
      ghost var now := released;
      if clientData.Holds? {
        ReleaseBlock(clientData.block.id);
        clientData := Nothing;
      }
      assert released == now + ClientIds(old(clientData));
    }
  }
}
