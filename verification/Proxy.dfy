/** One proxied request as three goroutines, and the request counters over many of them:
    `proxy` and finishRequestWrite in internal/server/server.go. */
module Proxy {
  /** Where the handler stands. */
  datatype Place =
    | Arrived
    | Checking        // counted in the total
    | Opening         // passed the three checks
    | Rejected        // a check or the opening failed, failure not yet counted
    | Opened          // stream open, its Close deferred
    | Forwarding      // watcher running, close of requestFinished deferred
    | Reading         // request writer running
    | ReadFailed      // failure not yet counted
    | Copying         // response head received, finishRequestWrite deferred
    | CopyFailed      // failure not yet counted
    | Draining        // closing the response body, which reads on to its end
    | Polling         // finishRequestWrite: the non-blocking receive
    | Cancelling      // finishRequestWrite: no message yet, CancelWrite next
    | ClosingBody     // finishRequestWrite: request.Body.Close next
    | Waiting         // finishRequestWrite: the blocking receive
    | Signalling      // deferred close of requestFinished next
    | ClosingStream   // deferred stream.Close next
    | Done

  /** The writer alternates between reading the upload and writing to the tunnel; it writes the head first. */
  datatype Writer = NotStarted | Pushing | Pulling | Returned | Sent

  datatype Watcher = Absent | Watching | Gone

  datatype Request = Request(
    place: Place,
    writer: Writer,
    watcher: Watcher,
    channel: nat,            // messages in the completion channel, which has room for one
    received: nat,           // messages the handler has taken
    readClosed: bool,        // reads from the stream fail: CancelRead, or the tunnel's side broke off
    writeClosed: bool,       // writes to the stream fail: CancelWrite, or the tunnel's side stopped reading
    bodyClosed: bool,        // request.Body.Close has ended
    contextDone: bool,       // the caller has gone away
    finished: bool,          // requestFinished is closed
    streamClosed: bool,
    faulty: bool,            // a failure exit was taken
    failures: nat,           // increments of the failure counter
    upload: nat,             // pieces of the request body the caller has still to send, its end included
    body: nat,               // pieces of the response body the tunnel has still to send, its end included
    closeInterrupts: bool)   // closing the request body ends a read in progress; if not, it waits for that read

  function Fresh(upload: nat, body: nat, closeInterrupts: bool): Request {
    Request(Arrived, NotStarted, Absent, 0, 0, false, false, false, false, false, false, false, 0,
            upload, body, closeInterrupts)
  }

  datatype Act =
    | Count | Reject | PassChecks | OpenFails | OpenStream | StartWatcher | StartWriter
    | ResponseArrives | ResponseFails | CopyPiece | CopyEnds | CopyFails | CountFailure | DrainPiece | DrainEnds
    | Poll | CancelWrite | CloseBody | Receive | Signal | CloseStream
    | PushPiece | PushFails | PullPiece | PullEnds | PullFails | Send
    | CallerLeaves | ReadBreaks | WriteBreaks | WatcherCancels | WatcherStops

  predicate Can(r: Request, act: Act) {
    match act
    case Count => r.place.Arrived?
    case Reject => r.place.Checking?
    case PassChecks => r.place.Checking?
    case OpenFails => r.place.Opening?
    case OpenStream => r.place.Opening?
    case StartWatcher => r.place.Opened?
    case StartWriter => r.place.Forwarding?
    case ResponseArrives => r.place.Reading?
    case ResponseFails => r.place.Reading? && r.readClosed
    case CopyPiece => r.place.Copying? && r.body > 0
    case CopyEnds => r.place.Copying? && r.body == 0
    case CopyFails => r.place.Copying? && (r.readClosed || r.contextDone)
    case CountFailure => r.place.Rejected? || r.place.ReadFailed? || r.place.CopyFailed?
    case DrainPiece => r.place.Draining? && r.body > 0
    case DrainEnds => r.place.Draining? && (r.body == 0 || r.readClosed)
    case Poll => r.place.Polling?
    case CancelWrite => r.place.Cancelling?
    case CloseBody => r.place.ClosingBody? && (r.closeInterrupts || !r.writer.Pulling?)
    case Receive => r.place.Waiting? && r.channel > 0
    case Signal => r.place.Signalling?
    case CloseStream => r.place.ClosingStream?
    case PushPiece => r.writer.Pushing? && !r.writeClosed
    case PushFails => r.writer.Pushing? && r.writeClosed
    case PullPiece => r.writer.Pulling? && r.upload > 0 && !r.bodyClosed
    case PullEnds => r.writer.Pulling? && r.upload == 0
    case PullFails => r.writer.Pulling? && (r.bodyClosed || r.contextDone)
    case Send => r.writer.Returned? && r.channel < 1
    case CallerLeaves => !r.contextDone
    case ReadBreaks => !r.readClosed
    case WriteBreaks => !r.writeClosed
    case WatcherCancels => r.watcher.Watching? && r.contextDone
    case WatcherStops => r.watcher.Watching? && r.finished
  }

  /** The caller or the tunnel has to do something for this step; nothing says that they ever do. */
  predicate Awaited(act: Act) {
    || act.ResponseArrives? || act.CopyPiece? || act.DrainPiece? || act.PushPiece? || act.PullPiece?
    || act.CallerLeaves? || act.ReadBreaks? || act.WriteBreaks?
  }

  /** The step is possible and comes without anyone's help; opening a stream, for one, has a deadline. */
  predicate Due(r: Request, act: Act) {
    Can(r, act) && !Awaited(act)
  }

  /** The step takes the completion message. */
  predicate Takes(r: Request, act: Act) {
    act.Receive? || (act.Poll? && r.channel > 0)
  }

  function NextPlace(r: Request, act: Act): Place {
    match act
    case Count => Checking
    case Reject => Rejected
    case PassChecks => Opening
    case OpenFails => Rejected
    case OpenStream => Opened
    case StartWatcher => Forwarding
    case StartWriter => Reading
    case ResponseArrives => Copying
    case ResponseFails => ReadFailed
    case CopyEnds => Polling
    case CopyFails => CopyFailed
    case CountFailure => if r.place.Rejected? then Done else if r.place.CopyFailed? then Draining else Polling
    case DrainEnds => Polling
    case Poll => if r.channel > 0 then Signalling else Cancelling
    case CancelWrite => ClosingBody
    case CloseBody => Waiting
    case Receive => Signalling
    case Signal => ClosingStream
    case CloseStream => Done
    case _ => r.place
  }

  function NextWriter(r: Request, act: Act): Writer {
    match act
    case StartWriter => Pushing
    case PushPiece => Pulling
    case PullPiece => Pushing
    case PushFails => Returned
    case PullEnds => Returned
    case PullFails => Returned
    case Send => Sent
    case _ => r.writer
  }

  function After(r: Request, act: Act): Request
    requires Can(r, act)
  {
    r.(place := NextPlace(r, act),
       writer := NextWriter(r, act),
       watcher := if act.StartWatcher? then Watching
                  else if act.WatcherCancels? || act.WatcherStops? then Gone else r.watcher,
       channel := if act.Send? then r.channel + 1 else if Takes(r, act) then r.channel - 1 else r.channel,
       received := if Takes(r, act) then r.received + 1 else r.received,
       readClosed := r.readClosed || act.ReadBreaks? || act.WatcherCancels?,
       writeClosed := r.writeClosed || act.WriteBreaks? || act.WatcherCancels? || act.CancelWrite?,
       bodyClosed := r.bodyClosed || act.CloseBody?,
       contextDone := r.contextDone || act.CallerLeaves?,
       finished := r.finished || act.Signal?,
       streamClosed := r.streamClosed || act.CloseStream?,
       faulty := r.faulty || act.Reject? || act.OpenFails? || act.ResponseFails? || act.CopyFails?,
       failures := if act.CountFailure? then r.failures + 1 else r.failures,
       upload := if act.PullPiece? then r.upload - 1 else r.upload,
       body := if act.CopyPiece? || act.DrainPiece? then r.body - 1 else r.body)
  }

  // ---------------------------------------------------------------- the join

  /** Before the writer is started, while it is to be joined, and after the join. */
  datatype Stage = Alone | Together | Apart | Over

  function StageOf(place: Place): Stage {
    match place
    case Signalling => Apart
    case ClosingStream => Apart
    case Done => Over
    case Reading => Together
    case ReadFailed => Together
    case Copying => Together
    case CopyFailed => Together
    case Draining => Together
    case Polling => Together
    case Cancelling => Together
    case ClosingBody => Together
    case Waiting => Together
    case _ => Alone
  }

  /** The completion message is neither lost nor duplicated, and the handler leaves the join only with it in hand. */
  predicate Sound(r: Request) {
    && r.channel + r.received == (if r.writer.Sent? then 1 else 0)
    && (match StageOf(r.place)
        case Alone => r.writer.NotStarted? && !r.streamClosed
        case Together => !r.writer.NotStarted? && r.received == 0 && !r.streamClosed
        case Apart => r.received == 1 && !r.streamClosed
        case Over => if r.writer.NotStarted? then !r.streamClosed else r.received == 1 && r.streamClosed)
  }

  /** The watcher is there for as long as the handler can wait, and it does not go before its work is done;
      the handler has released the writer before it waits for it. */
  predicate Guarded(r: Request) {
    && (StageOf(r.place).Together? || r.place.Forwarding? ==> !r.watcher.Absent? && !r.finished)
    && (r.watcher.Gone? ==> r.finished || (r.readClosed && r.writeClosed))
    && (r.place.ClosingBody? || r.place.Waiting? ==> r.writeClosed)
    && (r.place.Waiting? ==> r.bodyClosed)
    && (r.finished ==> r.place.ClosingStream? || r.place.Done?)
  }

  /** A failure exit is counted once, in the step that follows it. */
  predicate Tallied(r: Request) {
    match r.place
    case Arrived => !r.faulty && r.failures == 0
    case Checking => !r.faulty && r.failures == 0
    case Opening => !r.faulty && r.failures == 0
    case Opened => !r.faulty && r.failures == 0
    case Forwarding => !r.faulty && r.failures == 0
    case Reading => !r.faulty && r.failures == 0
    case Copying => !r.faulty && r.failures == 0
    case Rejected => r.faulty && r.failures == 0
    case ReadFailed => r.faulty && r.failures == 0
    case CopyFailed => r.faulty && r.failures == 0
    case _ => r.failures == if r.faulty then 1 else 0
  }

  lemma SoundStep(r: Request, act: Act)
    requires Sound(r) && Can(r, act)
    ensures Sound(After(r, act))
  {
  }

  lemma GuardedStep(r: Request, act: Act)
    requires Guarded(r) && Can(r, act)
    ensures Guarded(After(r, act))
  {
  }

  lemma TalliedStep(r: Request, act: Act)
    requires Tallied(r) && Can(r, act)
    ensures Tallied(After(r, act))
  {
  }

  /** How many steps the handler still has at most, apart from copying. */
  function HandlerSteps(place: Place): nat {
    match place
    case Arrived => 19
    case Checking => 18
    case Opening => 17
    case Opened => 16
    case Forwarding => 14
    case Reading => 10
    case Copying => 9
    case CopyFailed => 8
    case ReadFailed => 8
    case Draining => 7
    case Polling => 6
    case Cancelling => 5
    case ClosingBody => 4
    case Waiting => 3
    case Signalling => 2
    case ClosingStream => 1
    case Rejected => 1
    case Done => 0
  }

  function Pending(b: bool): nat {
    if b then 0 else 1
  }

  /** What the watcher and the surroundings can still do once. */
  function Others(r: Request): nat {
    Pending(r.watcher.Gone?) + Pending(r.contextDone) + Pending(r.readClosed) + Pending(r.writeClosed)
  }

  function Remaining(r: Request): nat {
    var writing := match r.writer case Pushing => 3 case Pulling => 2 case Returned => 1 case _ => 0;
    HandlerSteps(r.place) + writing + Others(r) + 2 * r.upload + r.body
  }

  lemma StepsNotMore(r: Request, act: Act)
    requires Can(r, act)
    ensures var before, after := HandlerSteps(r.place), HandlerSteps(NextPlace(r, act));
            && after <= before && (NextPlace(r, act) != r.place ==> after < before)
            && (act.StartWatcher? ==> after < before - 1) && (act.StartWriter? ==> after < before - 3)
  {
  }

  lemma RemainingDecreases(r: Request, act: Act)
    requires Can(r, act)
    ensures Remaining(After(r, act)) < Remaining(r)
  {
    StepsNotMore(r, act);
  }

  /** The same once the writer has been released: what is left of the two bodies does not matter any more. */
  function Rest(r: Request): nat {
    var writing := match r.writer case Pulling => 3 case Pushing => 2 case Returned => 1 case _ => 0;
    HandlerSteps(r.place) + writing + Others(r)
  }

  predicate Released(place: Place) {
    place.ClosingBody? || place.Waiting? || place.Signalling? || place.ClosingStream? || place.Done?
  }

  lemma RestDecreases(r: Request, act: Act)
    requires Sound(r) && Guarded(r) && Released(r.place) && Can(r, act)
    ensures Released(After(r, act).place) && Rest(After(r, act)) < Rest(r)
  {
  }

  lemma RestIsSmall(r: Request)
    requires Sound(r) && Guarded(r) && Released(r.place)
    ensures Rest(r) <= 10
  {
  }

  predicate IsFresh(r: Request) {
    r == Fresh(r.upload, r.body, r.closeInterrupts)
  }

  /** Every schedule of one request, over all interleavings of its goroutines and all answers of its surroundings. */
  datatype Schedule = Schedule(states: seq<Request>, acts: seq<Act>) {
    ghost predicate Valid() {
      && |states| == |acts| + 1
      && IsFresh(states[0])
      && forall i :: 0 <= i < |acts| ==> Follows(i)
    }

    ghost predicate Follows(i: nat)
      requires i < |acts| && |states| == |acts| + 1
    {
      Can(states[i], acts[i]) && states[i + 1] == After(states[i], acts[i])
    }
  }

  lemma {:induction false} SoundThroughout(schedule: Schedule, i: nat)
    requires schedule.Valid() && i < |schedule.states|
    ensures Sound(schedule.states[i]) && Guarded(schedule.states[i]) && Tallied(schedule.states[i])
  {
    if i > 0 {
      SoundThroughout(schedule, i - 1);
      assert schedule.Follows(i - 1);
      SoundStep(schedule.states[i - 1], schedule.acts[i - 1]);
      GuardedStep(schedule.states[i - 1], schedule.acts[i - 1]);
      TalliedStep(schedule.states[i - 1], schedule.acts[i - 1]);
    }
  }

  /** The join protocol, in every schedule: at most one completion message is ever taken; a handler that is done
      and started the writer has taken it; the stream is closed only after the writer has returned and reported;
      and a failure is counted at most once, and exactly once by the end for a request that took a failure exit. */
  lemma JoinIsExact(schedule: Schedule, i: nat)
    requires schedule.Valid() && i < |schedule.states|
    ensures var r := schedule.states[i];
            && r.received <= 1
            && (r.place.Done? && !r.writer.NotStarted? ==> r.received == 1 && r.streamClosed)
            && (r.streamClosed || (i < |schedule.acts| && schedule.acts[i].CloseStream?) ==> r.writer.Sent?)
            && r.failures <= 1 && (r.place.Done? ==> r.failures == if r.faulty then 1 else 0)
  {
    SoundThroughout(schedule, i);
    assert i < |schedule.acts| ==> schedule.Follows(i);
  }

  /** The handler waits for the tunnel: for its answer, or for more of it. */
  predicate AwaitsTunnel(r: Request) {
    (r.place.Reading? || ((r.place.Copying? || r.place.Draining?) && r.body > 0)) && !r.readClosed
  }

  /** Closing the request body waits for a read that waits for the caller. */
  predicate AwaitsUpload(r: Request) {
    r.place.ClosingBody? && r.writer.Pulling? && r.upload > 0 && !r.closeInterrupts
  }

  /** At the blocking receive of finishRequestWrite the message is there or comes without anyone's help:
      the writer is out of its loop, or the read or write it is in has been ended. */
  lemma WaitIsJustified(schedule: Schedule, i: nat)
    requires schedule.Valid() && i < |schedule.states| && schedule.states[i].place.Waiting?
    ensures var r := schedule.states[i];
            Due(r, Receive) || Due(r, Send) || Due(r, PushFails) || Due(r, PullFails)
  {
    SoundThroughout(schedule, i);
    Justified(schedule.states[i]);
  }

  /** Before the handler is done, some step comes without anyone's help, unless the caller is still there and
      the handler waits for the tunnel's answer or, while closing the body, for the upload. In particular nothing
      waits for ever once the caller has left. */
  lemma NeverStuck(schedule: Schedule, i: nat)
    requires schedule.Valid() && i < |schedule.states| && !schedule.states[i].place.Done?
    ensures var r := schedule.states[i];
            (exists act :: Due(r, act)) || (!r.contextDone && (AwaitsTunnel(r) || AwaitsUpload(r)))
  {
    SoundThroughout(schedule, i);
    Progress(schedule.states[i]);
  }

  lemma Progress(r: Request)
    requires Sound(r) && Guarded(r) && !r.place.Done?
    ensures (exists act :: Due(r, act)) || (!r.contextDone && (AwaitsTunnel(r) || AwaitsUpload(r)))
  {
    if r.place.Waiting? {
      Justified(r);
    } else if AwaitsTunnel(r) || AwaitsUpload(r) {
      if r.contextDone {
        WatcherFreesHandler(r);
      }
    } else {
      HandlerActs(r);
    }
  }

  lemma WatcherFreesHandler(r: Request)
    requires Guarded(r) && r.contextDone
    ensures AwaitsTunnel(r) ==> Due(r, WatcherCancels)
    ensures AwaitsUpload(r) ==> Due(r, PullFails)
  {
  }

  lemma HandlerActs(r: Request)
    requires !AwaitsTunnel(r) && !AwaitsUpload(r) && !r.place.Waiting? && !r.place.Done?
    ensures Due(r, HandlerAct(r))
  {
  }

  lemma Justified(r: Request)
    requires Sound(r) && Guarded(r) && r.place.Waiting?
    ensures Due(r, Receive) || Due(r, Send) || Due(r, PushFails) || Due(r, PullFails)
  {
  }

  /** What the handler does next when it need not wait, or what it needs the writer to do first. */
  function HandlerAct(r: Request): Act {
    match r.place
    case Arrived => Count
    case Checking => Reject
    case Opening => OpenFails
    case Rejected => CountFailure
    case Opened => StartWatcher
    case Forwarding => StartWriter
    case Reading => ResponseFails
    case ReadFailed => CountFailure
    case Copying => if r.body == 0 then CopyEnds else CopyFails
    case CopyFailed => CountFailure
    case Draining => DrainEnds
    case Polling => Poll
    case Cancelling => CancelWrite
    case ClosingBody => if r.writer.Pulling? && !r.closeInterrupts then PullEnds else CloseBody
    case Waiting => Receive
    case Signalling => Signal
    case ClosingStream => CloseStream
    case Done => WatcherStops
  }

  /** Once finishRequestWrite has cancelled the write, or found the message, at most ten more steps of all the
      goroutines and surroundings together are possible, however large the upload and the answer are. */
  lemma {:induction false} JoinIsPrompt(schedule: Schedule, i: nat, j: nat)
    requires schedule.Valid() && i <= j < |schedule.states| && Released(schedule.states[i].place)
    ensures Released(schedule.states[j].place) && Rest(schedule.states[j]) + (j - i) <= Rest(schedule.states[i]) <= 10
  {
    if i < j {
      JoinIsPrompt(schedule, i, j - 1);
      SoundThroughout(schedule, j - 1);
      assert schedule.Follows(j - 1);
      RestDecreases(schedule.states[j - 1], schedule.acts[j - 1]);
    } else {
      SoundThroughout(schedule, i);
      RestIsSmall(schedule.states[i]);
    }
  }

  predicate Finishing(place: Place) {
    place.Polling? || place.Cancelling? || (Released(place) && !place.Done?)
  }

  ghost predicate FinishingAt(schedule: Schedule, i: nat) {
    schedule.Valid() && i < |schedule.states| && Finishing(schedule.states[i].place)
  }

  /** From finishRequestWrite on, with such request bodies, no schedule ever waits for the caller or the tunnel. */
  ghost predicate FinishesAlone(closeInterrupts: bool) {
    forall schedule: Schedule, i: nat ::
      FinishingAt(schedule, i) && schedule.states[0].closeInterrupts == closeInterrupts
      ==> exists act :: Due(schedule.states[i], act)
  }

  /** finishRequestWrite needs nobody's help exactly if closing the request body ends a read in progress. Otherwise
      an answer that comes before the upload ends is held until the caller sends on or leaves. */
  lemma FinishNeedsNoOne(closeInterrupts: bool)
    ensures FinishesAlone(closeInterrupts) <==> closeInterrupts
  {
    if closeInterrupts {
      forall schedule: Schedule, i: nat | FinishingAt(schedule, i) && schedule.states[0].closeInterrupts
        ensures exists act :: Due(schedule.states[i], act)
      {
        NeverStuck(schedule, i);
        KindIsFixed(schedule, i);
      }
    } else {
      var schedule := HeldSchedule(Fresh(1, 0, false));
      assert FinishingAt(schedule, |schedule.acts|);
    }
  }

  lemma {:induction false} KindIsFixed(schedule: Schedule, i: nat)
    requires schedule.Valid() && i < |schedule.states|
    ensures schedule.states[i].closeInterrupts == schedule.states[0].closeInterrupts
  {
    if i > 0 {
      KindIsFixed(schedule, i - 1);
      assert schedule.Follows(i - 1);
    }
  }

  lemma NewSchedule(r: Request) returns (schedule: Schedule)
    requires IsFresh(r)
    ensures schedule.Valid() && schedule.states[0] == schedule.states[|schedule.acts|] == r
  {
    schedule := Schedule([r], []);
  }

  /** One more step of a schedule. */
  lemma Extend(schedule: Schedule, act: Act, next: Request) returns (longer: Schedule)
    requires schedule.Valid()
    requires Can(schedule.states[|schedule.acts|], act) && next == After(schedule.states[|schedule.acts|], act)
    ensures longer.Valid() && longer.states[0] == schedule.states[0] && longer.states[|longer.acts|] == next
  {
    longer := Schedule(schedule.states + [next], schedule.acts + [act]);
    assert forall i :: 0 <= i < |schedule.acts| ==> schedule.Follows(i) ==> longer.Follows(i);
  }

  /** The tunnel answers at once while the caller keeps its upload open. */
  lemma HeldSchedule(start: Request) returns (schedule: Schedule)
    requires IsFresh(start) && start.upload > 0 && start.body == 0 && !start.closeInterrupts
    ensures schedule.Valid() && schedule.states[0] == start
    ensures var r := schedule.states[|schedule.acts|];
            r.place.ClosingBody? && AwaitsUpload(r) && !r.contextDone && forall act :: !Due(r, act)
  {
    schedule := WritingSchedule(start);
    var pulling := start.(writer := Pulling, watcher := Watching);
    schedule := Extend(schedule, ResponseArrives, pulling.(place := Copying));
    schedule := Extend(schedule, CopyEnds, pulling.(place := Polling));
    schedule := Extend(schedule, Poll, pulling.(place := Cancelling));
    schedule := Extend(schedule, CancelWrite, pulling.(place := ClosingBody, writeClosed := true));
  }

  lemma WritingSchedule(start: Request) returns (schedule: Schedule)
    requires IsFresh(start)
    ensures schedule.Valid() && schedule.states[0] == start
    ensures schedule.states[|schedule.acts|] == start.(place := Reading, writer := Pulling, watcher := Watching)
  {
    schedule := OpenedSchedule(start);
    var ready := start.(watcher := Watching);
    schedule := Extend(schedule, StartWatcher, ready.(place := Forwarding));
    schedule := Extend(schedule, StartWriter, ready.(place := Reading, writer := Pushing));
    schedule := Extend(schedule, PushPiece, ready.(place := Reading, writer := Pulling));
  }

  lemma OpenedSchedule(start: Request) returns (schedule: Schedule)
    requires IsFresh(start)
    ensures schedule.Valid() && schedule.states[0] == start
    ensures schedule.states[|schedule.acts|] == start.(place := Opened)
  {
    schedule := NewSchedule(start);
    schedule := Extend(schedule, Count, start.(place := Checking));
    schedule := Extend(schedule, PassChecks, start.(place := Opening));
    schedule := Extend(schedule, OpenStream, start.(place := Opened));
  }

  /** Every schedule ends: it is no longer than a bound fixed by the two bodies. */
  lemma {:induction false} SchedulesAreFinite(schedule: Schedule, i: nat)
    requires schedule.Valid() && i < |schedule.states|
    ensures Remaining(schedule.states[i]) + i <= 23 + 2 * schedule.states[0].upload + schedule.states[0].body
  {
    if i > 0 {
      SchedulesAreFinite(schedule, i - 1);
      assert schedule.Follows(i - 1);
      RemainingDecreases(schedule.states[i - 1], schedule.acts[i - 1]);
    }
  }

  // ---------------------------------------------------------------- the counters

  datatype Traffic = Traffic(requests: map<int, Request>, total: nat, failed: nat)

  datatype Event = Arrive(id: int, upload: nat, body: nat, closeInterrupts: bool) | Progress(id: int, act: Act)

  predicate Possible(t: Traffic, e: Event) {
    match e
    case Arrive(id, _, _, _) => id !in t.requests
    case Progress(id, act) => id in t.requests && Can(t.requests[id], act)
  }

  function Next(t: Traffic, e: Event): Traffic
    requires Possible(t, e)
  {
    match e
    case Arrive(id, upload, body, closeInterrupts) =>
      t.(requests := t.requests[id := Fresh(upload, body, closeInterrupts)])
    case Progress(id, act) =>
      Traffic(t.requests[id := After(t.requests[id], act)],
              if act.Count? then t.total + 1 else t.total,
              if act.CountFailure? then t.failed + 1 else t.failed)
  }

  function Counted(t: Traffic): set<int> {
    set id | id in t.requests && !t.requests[id].place.Arrived?
  }

  function Failed(t: Traffic): set<int> {
    set id | id in t.requests && t.requests[id].failures > 0
  }

  function Succeeded(t: Traffic): set<int> {
    set id | id in t.requests && t.requests[id].place.Done? && t.requests[id].failures == 0
  }

  predicate IsInFlight(r: Request) {
    !r.place.Arrived? && !r.place.Done? && r.failures == 0
  }

  /** Counted, not finished and not counted as failed. */
  function InFlight(t: Traffic): set<int> {
    set id | id in t.requests && IsInFlight(t.requests[id])
  }

  ghost predicate Balanced(t: Traffic) {
    && (forall id :: id in t.requests ==> Tallied(t.requests[id]))
    && t.total == |Counted(t)| && t.failed == |Failed(t)|
  }

  /** Which request a step adds to the counted and to the failed ones. */
  lemma SetsStep(t: Traffic, e: Event)
    requires (forall id :: id in t.requests ==> Tallied(t.requests[id])) && Possible(t, e)
    ensures var n := Next(t, e);
            && Counted(n) == Counted(t) + (if e.Progress? && e.act.Count? then {e.id} else {})
            && Failed(n) == Failed(t) + (if e.Progress? && e.act.CountFailure? then {e.id} else {})
    ensures e.Progress? && e.act.Count? ==> e.id !in Counted(t)
    ensures e.Progress? && e.act.CountFailure? ==> e.id !in Failed(t)
  {
  }

  lemma BalancedStep(t: Traffic, e: Event)
    requires Balanced(t) && Possible(t, e)
    ensures Balanced(Next(t, e))
  {
    SetsStep(t, e);
    if e.Progress? {
      TalliedStep(t.requests[e.id], e.act);
    }
  }

  datatype History = History(states: seq<Traffic>, events: seq<Event>) {
    ghost predicate Valid() {
      && |states| == |events| + 1
      && states[0] == Traffic(map[], 0, 0)
      && forall i :: 0 <= i < |events| ==> Possible(states[i], events[i]) && states[i + 1] == Next(states[i], events[i])
    }
  }

  lemma {:induction false} BalancedThroughout(history: History, i: nat)
    requires history.Valid() && i < |history.states|
    ensures Balanced(history.states[i])
  {
    if i > 0 {
      BalancedThroughout(history, i - 1);
      BalancedStep(history.states[i - 1], history.events[i - 1]);
    }
  }

  /** Conservation, at every moment of every interleaving of any number of requests: the total is what is in flight
      plus what succeeded plus the failure counter; so failures never exceed the total. A finished request is in the
      failure counter exactly if it took one of the six failure exits. */
  lemma RequestsAreConserved(history: History, i: nat)
    requires history.Valid() && i < |history.states|
    ensures var t := history.states[i];
            && t.total == |InFlight(t)| + |Succeeded(t)| + t.failed
            && t.failed <= t.total
            && forall id :: id in t.requests && t.requests[id].place.Done? ==>
               (id in Failed(t) <==> t.requests[id].faulty)
  {
    BalancedThroughout(history, i);
    var t := history.states[i];
    forall id | id in t.requests && t.requests[id].place.Done?
      ensures id in Failed(t) <==> t.requests[id].faulty
    {
      assert Tallied(t.requests[id]);
    }
    Partition(t);
    Sizes(InFlight(t), Succeeded(t), Failed(t));
  }

  /** Every counted request is in exactly one of the three classes. */
  lemma Partition(t: Traffic)
    requires Balanced(t)
    ensures Counted(t) == InFlight(t) + Succeeded(t) + Failed(t)
    ensures InFlight(t) !! Succeeded(t) && InFlight(t) !! Failed(t) && Succeeded(t) !! Failed(t)
  {
    forall id | id in t.requests
      ensures id in Counted(t) <==> id in InFlight(t) || id in Succeeded(t) || id in Failed(t)
    {
      assert Tallied(t.requests[id]);
    }
    forall id
      ensures !(id in InFlight(t) && id in Succeeded(t))
      ensures !(id in Failed(t) && (id in InFlight(t) || id in Succeeded(t)))
    {
    }
  }

  lemma Sizes(a: set<int>, b: set<int>, c: set<int>)
    requires a !! b && a !! c && b !! c
    ensures |a + b + c| == |a| + |b| + |c|
  {
    assert |a + b| == |a| + |b|;
  }
}
