/**
 * One server-sent-events client: backpressure, the bounded queue, the stall timer and the heartbeat retry
 * (`StreamClient` in src/api/stream.ts). What the socket answers to a write, and when timers fire, are inputs.
 */
module Stream {
  import opened Outcomes

  const MAX_QUEUED: nat := 200
  const RETRY_INITIAL_MS: nat := 1000
  const RETRY_MAX_MS: nat := 16000

  datatype Kind = Resync | Notification | Heartbeat

  /** A frame with the ledger it carries as its SSE id. */
  datatype Frame = Frame(kind: Kind, id: nat, body: string)

  /** `write` returned true, returned false (the frame is taken, but wait for 'drain'), or threw. */
  datatype WriteResult = Accepted | Full | Broken(destroyed: bool)

  /** The fields of the client, with two histories: frames handed to the socket and frames produced. */
  datatype Client = Client(
    paused: bool,
    closed: bool,
    released: bool,
    queue: seq<Frame>,
    stallArmed: bool,
    retryArmed: bool,
    retryDelayMs: nat,
    lastSentLedger: nat,
    wire: seq<Frame>,
    produced: seq<Frame>)

  function Opened(ledger: nat): Client {
    Client(false, false, false, [], false, false, RETRY_INITIAL_MS, ledger, [], [])
  }

  /** `writeFrame`. */
  function WriteFrame(c: Client, f: Frame, r: WriteResult): Client {
    match r
    case Accepted => c.(paused := false, stallArmed := false, wire := c.wire + [f])
    case Full => c.(paused := true, stallArmed := true, wire := c.wire + [f])
    case Broken(destroyed) => if destroyed then c.(closed := true) else c
  }

  function Close(c: Client): Client {
    if c.released then c
    else c.(closed := true, queue := [], stallArmed := false, retryArmed := false, released := true)
  }

  /** A consumer that cannot keep up is dropped rather than buffered for ever. */
  function Enqueue(c: Client, f: Frame): Client {
    if |c.queue| >= MAX_QUEUED then Close(c) else c.(queue := c.queue + [f])
  }

  /** `sendMessage`. */
  function Send(c: Client, kind: Kind, ledger: Option<nat>, body: string, force: bool, r: WriteResult): Client {
    if c.closed then c
    else
      var id := if ledger.Some? && ledger.value > c.lastSentLedger then ledger.value else c.lastSentLedger;
      var f := Frame(kind, id, body);
      var c1 := c.(lastSentLedger := id, produced := c.produced + [f]);
      if c.paused && !force then Enqueue(c1, f) else WriteFrame(c1, f, r)
  }

  function Head(rs: seq<WriteResult>): WriteResult {
    if rs == [] then Accepted else rs[0]
  }

  function Tail(rs: seq<WriteResult>): seq<WriteResult> {
    if rs == [] then [] else rs[1..]
  }

  /** `flushQueue`. */
  function Flush(c: Client, rs: seq<WriteResult>): Client
    decreases |c.queue|
  {
    if c.paused || c.closed || c.queue == [] then c
    else Flush(WriteFrame(c.(queue := c.queue[1..]), c.queue[0], Head(rs)), Tail(rs))
  }

  datatype Input =
    | Message(resync: bool, ledger: Option<nat>, body: string, result: WriteResult)
    | Drained(results: seq<WriteResult>)  // the socket's 'drain' event
    | Tick(body: string, result: WriteResult)  // heartbeat interval
    | Retry(body: string, result: WriteResult) // heartbeat retry timer
    | Stalled                                  // stall timer
    | Hangup                                   // close(), socket close, error or idle timeout

  function Min(a: nat, b: nat): nat {
    if a < b then a else b
  }

  function Step(c: Client, i: Input): Client {
    match i
    case Message(resync, ledger, body, r) => Send(c, if resync then Resync else Notification, ledger, body, false, r)
    case Drained(rs) => Flush(c.(paused := false, stallArmed := false), rs)
    case Tick(body, r) =>
      if c.closed then c
      else if !c.paused then Send(c, Heartbeat, None, body, false, r)
      else if c.retryArmed then c
      else c.(retryArmed := true, retryDelayMs := RETRY_INITIAL_MS)
    case Retry(body, r) =>
      if !c.retryArmed then c
      else
        var c1 := c.(retryArmed := false);
        if c.closed then c1
        else
          var c2 := Send(c1, Heartbeat, None, body, true, r);
          if c2.paused then c2.(retryArmed := true, retryDelayMs := Min(c2.retryDelayMs * 2, RETRY_MAX_MS)) else c2
    case Stalled => if c.stallArmed then Close(c) else c
    case Hangup => Close(c)
  }

  function After(c: Client, inputs: seq<Input>): Client {
    if inputs == [] then c else Step(After(c, inputs[..|inputs| - 1]), inputs[|inputs| - 1])
  }

  function Exec(ledger: nat, inputs: seq<Input>): Client {
    After(Opened(ledger), inputs)
  }

  // What holds in every run

  ghost predicate Ordered(fs: seq<Frame>, top: nat) {
    && (forall i, j :: 0 <= i < j < |fs| ==> fs[i].id <= fs[j].id)
    && (forall i :: 0 <= i < |fs| ==> fs[i].id <= top)
  }

  ghost predicate Inv(c: Client) {
    && |c.queue| <= MAX_QUEUED
    && (!c.closed ==> (c.paused <==> c.stallArmed))
    && (c.released ==> c.closed && c.queue == [] && !c.stallArmed && !c.retryArmed)
    && (forall f :: f in c.queue ==> f.kind != Heartbeat)
    && Ordered(c.produced, c.lastSentLedger)
  }

  lemma {:induction false} FlushKeepsInv(c: Client, rs: seq<WriteResult>)
    requires Inv(c)
    ensures Inv(Flush(c, rs))
    decreases |c.queue|
  {
    if !c.paused && !c.closed && c.queue != [] {
      FlushKeepsInv(WriteFrame(c.(queue := c.queue[1..]), c.queue[0], Head(rs)), Tail(rs));
    }
  }

  lemma SendKeepsInv(c: Client, kind: Kind, ledger: Option<nat>, body: string, force: bool, r: WriteResult)
    requires Inv(c) && (kind == Heartbeat ==> force || !c.paused)
    ensures Inv(Send(c, kind, ledger, body, force, r))
  {
  }

  lemma StepKeepsInv(c: Client, i: Input)
    requires Inv(c)
    ensures Inv(Step(c, i))
  {
    match i {
      case Message(resync, ledger, body, r) =>
        SendKeepsInv(c, if resync then Resync else Notification, ledger, body, false, r);
      case Drained(rs) => FlushKeepsInv(c.(paused := false, stallArmed := false), rs);
      case Tick(body, r) =>
        if !c.paused {
          SendKeepsInv(c, Heartbeat, None, body, false, r);
        }
      case Retry(body, r) => SendKeepsInv(c.(retryArmed := false), Heartbeat, None, body, true, r);
      case _ =>
    }
  }

  lemma {:induction false} InvHolds(ledger: nat, inputs: seq<Input>)
    ensures Inv(Exec(ledger, inputs))
  {
    if inputs != [] {
      hide Step;
      InvHolds(ledger, inputs[..|inputs| - 1]);
      StepKeepsInv(Exec(ledger, inputs[..|inputs| - 1]), inputs[|inputs| - 1]);
    }
  }

  /** In every run the queue stays within its bound, an open client is paused exactly while its stall timer is
      armed, a released one has no queue and no timers, and frame ids never decrease. */
  lemma QueueIsBounded(ledger: nat, inputs: seq<Input>)
    ensures var c := Exec(ledger, inputs);
            && |c.queue| <= 200
            && (!c.closed ==> (c.paused <==> c.stallArmed))
            && (c.released ==> c.closed && c.queue == [] && !c.stallArmed && !c.retryArmed)
            && (forall i, j :: 0 <= i < j < |c.produced| ==> c.produced[i].id <= c.produced[j].id)
  {
    InvHolds(ledger, inputs);
  }

  /** Nothing reaches the socket, and nothing more is produced, once a client is closed. */
  lemma {:induction false} NothingAfterClose(c: Client, inputs: seq<Input>)
    requires c.closed
    ensures After(c, inputs).closed && After(c, inputs).wire == c.wire && After(c, inputs).produced == c.produced
  {
    if inputs != [] {
      NothingAfterClose(c, inputs[..|inputs| - 1]);
    }
  }

  // No frame is lost or duplicated

  predicate Sound(r: WriteResult) {
    !r.Broken?
  }

  predicate SoundInput(i: Input) {
    match i
    case Message(_, _, _, r) => Sound(r)
    case Drained(rs) => forall k :: 0 <= k < |rs| ==> Sound(rs[k])
    case Tick(_, r) => Sound(r)
    case Retry(_, r) => Sound(r)
    case _ => true
  }

  predicate SoundRun(inputs: seq<Input>) {
    forall i :: 0 <= i < |inputs| ==> SoundInput(inputs[i])
  }

  /** While open, the frames handed over and the frames waiting are together exactly those produced. */
  ghost predicate Complete(c: Client) {
    !c.closed ==> multiset(c.wire) + multiset(c.queue) == multiset(c.produced)
  }

  /** Moving the first waiting frame to the wire. */
  lemma ShiftKeepsFrames(wire: seq<Frame>, queue: seq<Frame>)
    requires queue != []
    ensures multiset(wire + [queue[0]]) + multiset(queue[1..]) == multiset(wire) + multiset(queue)
  {
    assert queue == [queue[0]] + queue[1..];
  }

  lemma {:induction false} FlushKeepsComplete(c: Client, rs: seq<WriteResult>)
    requires Complete(c) && forall k :: 0 <= k < |rs| ==> Sound(rs[k])
    ensures Complete(Flush(c, rs))
    decreases |c.queue|
  {
    if !c.paused && !c.closed && c.queue != [] {
      ShiftKeepsFrames(c.wire, c.queue);
      var c1 := WriteFrame(c.(queue := c.queue[1..]), c.queue[0], Head(rs));
      assert c1.wire == c.wire + [c.queue[0]];
      FlushKeepsComplete(c1, Tail(rs));
    }
  }

  lemma SendKeepsComplete(c: Client, kind: Kind, ledger: Option<nat>, body: string, force: bool, r: WriteResult)
    requires Complete(c) && Sound(r) && (c.released ==> c.closed)
    ensures Complete(Send(c, kind, ledger, body, force, r))
  {
    var c' := Send(c, kind, ledger, body, force, r);
    if !c.closed && !c'.closed {
      var f := c'.produced[|c.produced|];
      assert c'.produced == c.produced + [f];
      assert (c'.wire == c.wire + [f] && c'.queue == c.queue) || (c'.wire == c.wire && c'.queue == c.queue + [f]);
    }
  }

  lemma StepKeepsComplete(c: Client, i: Input)
    requires Inv(c) && Complete(c) && SoundInput(i)
    ensures Complete(Step(c, i))
  {
    hide Send;
    match i {
      case Drained(rs) => FlushKeepsComplete(c.(paused := false, stallArmed := false), rs);
      case Message(resync, ledger, body, r) =>
        SendKeepsComplete(c, if resync then Resync else Notification, ledger, body, false, r);
      case Tick(body, r) => SendKeepsComplete(c, Heartbeat, None, body, false, r);
      case Retry(body, r) => SendKeepsComplete(c.(retryArmed := false), Heartbeat, None, body, true, r);
      case _ =>
    }
  }

  /** As long as writes do not throw, no frame is lost or sent twice, forced heartbeats included. */
  lemma {:induction false} NoFrameIsLost(ledger: nat, inputs: seq<Input>)
    requires SoundRun(inputs)
    ensures Complete(Exec(ledger, inputs))
  {
    if inputs != [] {
      hide Step;
      NoFrameIsLost(ledger, inputs[..|inputs| - 1]);
      InvHolds(ledger, inputs[..|inputs| - 1]);
      StepKeepsComplete(Exec(ledger, inputs[..|inputs| - 1]), inputs[|inputs| - 1]);
    }
  }

  // Wire order

  /** A retried heartbeat goes out while other frames are waiting. */
  predicate Overtakes(c: Client, i: Input) {
    i.Retry? && c.retryArmed && !c.closed && c.queue != []
  }

  predicate Overtaken(ledger: nat, inputs: seq<Input>) {
    exists k :: 0 <= k < |inputs| && Overtakes(Exec(ledger, inputs[..k]), inputs[k])
  }

  ghost predicate InOrder(c: Client) {
    && c.wire <= c.produced
    && (!c.closed ==> c.wire + c.queue == c.produced && (!c.paused ==> c.queue == []))
  }

  lemma {:induction false} FlushKeepsOrder(c: Client, rs: seq<WriteResult>)
    requires c.wire <= c.produced && (!c.closed ==> c.wire + c.queue == c.produced)
    requires forall k :: 0 <= k < |rs| ==> Sound(rs[k])
    ensures InOrder(Flush(c, rs))
    decreases |c.queue|
  {
    if !c.paused && !c.closed && c.queue != [] {
      assert c.wire + c.queue == c.wire + [c.queue[0]] + c.queue[1..];
      FlushKeepsOrder(WriteFrame(c.(queue := c.queue[1..]), c.queue[0], Head(rs)), Tail(rs));
    }
  }

  lemma SendKeepsOrder(c: Client, kind: Kind, ledger: Option<nat>, body: string, force: bool, r: WriteResult)
    requires InOrder(c) && Sound(r) && (c.released ==> c.closed) && (force && !c.closed ==> c.queue == [])
    ensures InOrder(Send(c, kind, ledger, body, force, r))
  {
    var c' := Send(c, kind, ledger, body, force, r);
    if !c.closed && !c'.closed {
      var f := c'.produced[|c.produced|];
      assert c'.produced == c.wire + c.queue + [f];
      if c.paused && !force {
        assert c'.wire + c'.queue == c.wire + c.queue + [f];
      } else {
        assert c'.wire + c'.queue == c.wire + [f];
      }
    }
  }

  lemma StepKeepsOrder(c: Client, i: Input)
    requires Inv(c) && InOrder(c) && SoundInput(i) && !Overtakes(c, i)
    ensures InOrder(Step(c, i))
  {
    hide Send;
    match i {
      case Drained(rs) => FlushKeepsOrder(c.(paused := false, stallArmed := false), rs);
      case Message(resync, ledger, body, r) =>
        SendKeepsOrder(c, if resync then Resync else Notification, ledger, body, false, r);
      case Tick(body, r) => SendKeepsOrder(c, Heartbeat, None, body, false, r);
      case Retry(body, r) =>
        if c.retryArmed {
          SendKeepsOrder(c.(retryArmed := false), Heartbeat, None, body, true, r);
        }
      case _ =>
    }
  }

  /** Once a heartbeat has overtaken a waiting frame, the wire differs from what was sent at that place. */
  lemma OvertakingBreaksOrder(c: Client, i: Input)
    requires Inv(c) && InOrder(c) && SoundInput(i) && Overtakes(c, i)
    ensures !(Step(c, i).wire <= Step(c, i).produced)
  {
    var c' := Step(c, i);
    var k := |c.wire|;
    assert c'.wire[k].kind == Heartbeat;
    assert c'.produced[k] == c.queue[0] && c.queue[0] in c.queue;
  }

  lemma {:induction false} FlushAppends(c: Client, rs: seq<WriteResult>)
    ensures c.wire <= Flush(c, rs).wire && Flush(c, rs).produced == c.produced
    decreases |c.queue|
  {
    if !c.paused && !c.closed && c.queue != [] {
      FlushAppends(WriteFrame(c.(queue := c.queue[1..]), c.queue[0], Head(rs)), Tail(rs));
    }
  }

  /** Neither the wire nor the list of produced frames is ever taken back, and the wire is never longer. */
  lemma StepAppends(c: Client, i: Input)
    ensures c.wire <= Step(c, i).wire && c.produced <= Step(c, i).produced
  {
    match i {
      case Drained(rs) => FlushAppends(c.(paused := false, stallArmed := false), rs);
      case _ =>
    }
  }

  lemma DisorderStays(c: Client, c': Client)
    requires |c.wire| <= |c.produced| && c.wire <= c'.wire && c.produced <= c'.produced && !(c.wire <= c.produced)
    ensures !(c'.wire <= c'.produced)
  {
    var k :| 0 <= k < |c.wire| && c.wire[k] != c.produced[k];
    assert c'.wire[k] != c'.produced[k];
  }

  lemma {:induction false} FlushKeepsLength(c: Client, rs: seq<WriteResult>)
    requires |c.wire| + |c.queue| <= |c.produced|
    ensures |Flush(c, rs).wire| + |Flush(c, rs).queue| <= |Flush(c, rs).produced|
    decreases |c.queue|
  {
    if !c.paused && !c.closed && c.queue != [] {
      FlushKeepsLength(WriteFrame(c.(queue := c.queue[1..]), c.queue[0], Head(rs)), Tail(rs));
    }
  }

  lemma {:induction false} WireIsNoLonger(ledger: nat, inputs: seq<Input>)
    ensures var c := Exec(ledger, inputs); |c.wire| + |c.queue| <= |c.produced|
  {
    if inputs != [] {
      var n := |inputs| - 1;
      WireIsNoLonger(ledger, inputs[..n]);
      hide Step;
      StepKeepsLength(Exec(ledger, inputs[..n]), inputs[n]);
    }
  }

  lemma StepKeepsLength(c: Client, input: Input)
    requires |c.wire| + |c.queue| <= |c.produced|
    ensures |Step(c, input).wire| + |Step(c, input).queue| <= |Step(c, input).produced|
  {
    match input {
      case Drained(rs) =>
        FlushKeepsLength(c.(paused := false, stallArmed := false), rs);
        hide Flush;
      case _ =>
    }
  }

  lemma OvertakenSnoc(ledger: nat, inputs: seq<Input>)
    requires inputs != []
    ensures var n := |inputs| - 1;
            Overtaken(ledger, inputs) <==>
            Overtaken(ledger, inputs[..n]) || Overtakes(Exec(ledger, inputs[..n]), inputs[n])
  {
    hide Overtakes, Exec;
    var n := |inputs| - 1;
    assert forall k :: 0 <= k <= n ==> inputs[..n][..k] == inputs[..k];
    if Overtaken(ledger, inputs[..n]) {
      var k :| 0 <= k < n && Overtakes(Exec(ledger, inputs[..n][..k]), inputs[..n][k]);
      assert Overtakes(Exec(ledger, inputs[..k]), inputs[k]);
    }
    if Overtaken(ledger, inputs) && !Overtakes(Exec(ledger, inputs[..n]), inputs[n]) {
      var k :| 0 <= k < |inputs| && Overtakes(Exec(ledger, inputs[..k]), inputs[k]);
      assert Overtakes(Exec(ledger, inputs[..n][..k]), inputs[..n][k]);
    }
  }

  /** As long as writes do not throw, frames reach the socket in the order they were sent if and only if no
      heartbeat retry fired while frames were waiting. */
  lemma {:induction false} WireOrderIsSendOrder(ledger: nat, inputs: seq<Input>)
    requires SoundRun(inputs)
    ensures !Overtaken(ledger, inputs) ==> InOrder(Exec(ledger, inputs))
    ensures Overtaken(ledger, inputs) <==> !(Exec(ledger, inputs).wire <= Exec(ledger, inputs).produced)
  {
    if inputs != [] {
      hide Step, Overtakes, Overtaken;
      var n := |inputs| - 1;
      var c := Exec(ledger, inputs[..n]);
      WireOrderIsSendOrder(ledger, inputs[..n]);
      OvertakenSnoc(ledger, inputs);
      InvHolds(ledger, inputs[..n]);
      WireIsNoLonger(ledger, inputs[..n]);
      StepAppends(c, inputs[n]);
      if Overtaken(ledger, inputs[..n]) {
        DisorderStays(c, Step(c, inputs[n]));
      } else if Overtakes(c, inputs[n]) {
        OvertakingBreaksOrder(c, inputs[n]);
      } else {
        StepKeepsOrder(c, inputs[n]);
      }
    }
  }

  lemma ExecSnoc(ledger: nat, inputs: seq<Input>, i: Input)
    ensures Exec(ledger, inputs + [i]) == Step(Exec(ledger, inputs), i)
  {
    hide Step;
    assert (inputs + [i])[..|inputs|] == inputs;
  }

  /** And a heartbeat retry does fire while frames are waiting, with no write throwing: the socket fills up, one
      more frame is queued, a heartbeat falls due, and its retry is accepted. */
  lemma OvertakingHappens(ledger: nat)
    ensures var inputs := [Message(false, None, "", Full), Message(false, None, "", Accepted), Tick("", Accepted),
                           Retry("", Accepted)];
            SoundRun(inputs) && Overtaken(ledger, inputs)
              && !(Exec(ledger, inputs).wire <= Exec(ledger, inputs).produced)
  {
    var i1, i2, i3, i4 := Message(false, None, "", Full), Message(false, None, "", Accepted), Tick("", Accepted),
      Retry("", Accepted);
    var inputs := [i1, i2, i3, i4];
    assert [] + [i1] == [i1] && [i1] + [i2] == [i1, i2] && [i1, i2] + [i3] == inputs[..3];
    ExecSnoc(ledger, [], i1);
    ExecSnoc(ledger, [i1], i2);
    ExecSnoc(ledger, [i1, i2], i3);
    assert Overtakes(Exec(ledger, inputs[..3]), inputs[3]);
    hide Exec, Overtakes;
    WireOrderIsSendOrder(ledger, inputs);
  }

  // Frames left behind

  /** Open, not paused, and yet with frames waiting: no 'drain' is due that would flush them. */
  predicate Stranded(c: Client) {
    !c.closed && !c.paused && c.queue != []
  }

  /** A heartbeat retry is accepted while frames are waiting: the client goes on without flushing them. */
  predicate Strands(c: Client, i: Input) {
    Overtakes(c, i) && i.result.Accepted?
  }

  /** The write neither fills the socket nor finds it destroyed. */
  predicate GoesOn(r: WriteResult) {
    r.Accepted? || r == Broken(false)
  }

  /** An input that does not free a stranded client. */
  predicate LeavesStranded(c: Client, i: Input) {
    match i
    case Message(_, _, _, r) => GoesOn(r)
    case Drained(_) => false
    case Tick(_, r) => GoesOn(r)
    case Retry(_, r) => !c.retryArmed || GoesOn(r)
    case Stalled => true
    case Hangup => false
  }

  lemma {:induction false} FlushStrandsNothing(c: Client, rs: seq<WriteResult>)
    ensures !Stranded(Flush(c, rs))
    decreases |c.queue|
  {
    if !c.paused && !c.closed && c.queue != [] {
      FlushStrandsNothing(WriteFrame(c.(queue := c.queue[1..]), c.queue[0], Head(rs)), Tail(rs));
    }
  }

  /** Exactly when a client is stranded: a retry was just accepted over waiting frames, or it was stranded before
      and nothing has freed it. */
  lemma StrandedIff(c: Client, i: Input)
    requires Inv(c)
    ensures Stranded(Step(c, i)) <==> Strands(c, i) || (Stranded(c) && LeavesStranded(c, i))
  {
    hide Ordered;
    match i {
      case Drained(rs) =>
        FlushStrandsNothing(c.(paused := false, stallArmed := false), rs);
        hide Flush;
      case _ =>
    }
  }

  /** So in every run frames are left behind only by an accepted retry, and only until the next 'drain'. */
  lemma {:induction false} OnlyARetryStrands(ledger: nat, inputs: seq<Input>)
    requires Stranded(Exec(ledger, inputs))
    ensures exists k :: 0 <= k < |inputs| && Strands(Exec(ledger, inputs[..k]), inputs[k])
                        && forall j :: k < j < |inputs| ==> !inputs[j].Drained?
  {
    hide Step;
    if inputs != [] {
      var n := |inputs| - 1;
      InvHolds(ledger, inputs[..n]);
      StrandedIff(Exec(ledger, inputs[..n]), inputs[n]);
      assert inputs == inputs[..n] + [inputs[n]];
      ExecSnoc(ledger, inputs[..n], inputs[n]);
      hide Exec, Strands;
      if !Strands(Exec(ledger, inputs[..n]), inputs[n]) {
        OnlyARetryStrands(ledger, inputs[..n]);
        var k :| 0 <= k < n && Strands(Exec(ledger, inputs[..n][..k]), inputs[..n][k])
                 && forall j :: k < j < n ==> !inputs[..n][j].Drained?;
        assert inputs[..n][..k] == inputs[..k];
        assert forall j :: k < j < n ==> inputs[j] == inputs[..n][j];
      }
    }
  }

  /** The socket takes whatever it is given. */
  predicate Welcome(i: Input) {
    match i
    case Message(_, _, _, r) => r.Accepted?
    case Tick(_, r) => r.Accepted?
    case Retry(_, r) => r.Accepted?
    case _ => false
  }

  /** A stranded frame stays behind for as long as the socket takes every write, since no 'drain' comes then: later
      frames go out and it does not. */
  lemma {:induction false} StrandedFramesStay(c: Client, inputs: seq<Input>)
    requires Inv(c) && Stranded(c) && forall i :: i in inputs ==> Welcome(i)
    ensures Inv(After(c, inputs)) && Stranded(After(c, inputs)) && After(c, inputs).queue == c.queue
  {
    if inputs != [] {
      var n := |inputs| - 1;
      assert inputs[n] in inputs && forall i :: i in inputs[..n] ==> i in inputs;
      StrandedFramesStay(c, inputs[..n]);
      StepKeepsInv(After(c, inputs[..n]), inputs[n]);
    }
  }

  /** And it happens: the socket fills up, "x" is queued, a heartbeat retry is accepted, and "y" overtakes "x". */
  lemma StrandingHappens(ledger: nat)
    ensures var inputs := [Message(false, None, "", Full), Message(false, None, "x", Accepted), Tick("", Accepted),
                           Retry("", Accepted), Message(false, None, "y", Accepted)];
            var c := Exec(ledger, inputs);
            && SoundRun(inputs) && Stranded(c) && !c.stallArmed
            && c.queue == [Frame(Notification, ledger, "x")] && Frame(Notification, ledger, "y") in c.wire
  {
    var i1, i2, i3 := Message(false, None, "", Full), Message(false, None, "x", Accepted), Tick("", Accepted);
    var i4, i5 := Retry("", Accepted), Message(false, None, "y", Accepted);
    assert [] + [i1] == [i1] && [i1] + [i2] == [i1, i2] && [i1, i2] + [i3] == [i1, i2, i3];
    assert [i1, i2, i3] + [i4] == [i1, i2, i3, i4] && [i1, i2, i3, i4] + [i5] == [i1, i2, i3, i4, i5];
    ExecSnoc(ledger, [], i1);
    ExecSnoc(ledger, [i1], i2);
    ExecSnoc(ledger, [i1, i2], i3);
    ExecSnoc(ledger, [i1, i2, i3], i4);
    ExecSnoc(ledger, [i1, i2, i3, i4], i5);
    var c4 := Exec(ledger, [i1, i2, i3, i4]);
    assert c4.queue == [Frame(Notification, ledger, "x")] && !c4.paused && !c4.closed && !c4.stallArmed;
  }

  /** The client object, updated in place. */
  class StreamClient {
    var paused: bool
    var closed: bool
    var released: bool
    var queue: seq<Frame>
    var stallArmed: bool
    var retryArmed: bool
    var retryDelayMs: nat
    var lastSentLedger: nat
    ghost var wire: seq<Frame>
    ghost var produced: seq<Frame>

    ghost function View(): Client
      reads this
    {
      Client(paused, closed, released, queue, stallArmed, retryArmed, retryDelayMs, lastSentLedger, wire, produced)
    }

    constructor (ledger: nat)
      ensures View() == Opened(ledger)
    {
      paused, closed, released, queue, stallArmed, retryArmed := false, false, false, [], false, false;
      retryDelayMs, lastSentLedger := RETRY_INITIAL_MS, ledger;
      wire, produced := [], [];
    }

    method WriteToSocket(f: Frame, r: WriteResult)
      modifies this
      ensures View() == WriteFrame(old(View()), f, r)
    {
      match r {
        case Accepted =>
          wire := wire + [f];
          paused, stallArmed := false, false;
        case Full =>
          wire := wire + [f];
          paused, stallArmed := true, true;
        case Broken(destroyed) =>
          if destroyed {
            closed := true;
          }
      }
    }

    method CloseClient()
      modifies this
      ensures View() == Close(old(View()))
    {
      if released {
        return;
      }
      closed, queue, stallArmed, retryArmed := true, [], false, false;
      released := true;
    }

    method SendMessage(kind: Kind, ledger: Option<nat>, body: string, force: bool, r: WriteResult)
      modifies this
      ensures View() == Send(old(View()), kind, ledger, body, force, r)
    {
      if closed {
        return;
      }
      if ledger.Some? && ledger.value > lastSentLedger {
        lastSentLedger := ledger.value;
      }
      var f := Frame(kind, lastSentLedger, body);
      produced := produced + [f];
      if paused && !force {
        if |queue| >= MAX_QUEUED {
          CloseClient();
        } else {
          queue := queue + [f];
        }
      } else {
        WriteToSocket(f, r);
      }
    }

    method FlushQueue(rs: seq<WriteResult>)
      modifies this
      ensures View() == Flush(old(View()), rs)
    {
      ghost var begin := View();
      var left := rs;
      while !paused && !closed && |queue| > 0
        invariant Flush(begin, rs) == Flush(View(), left)
        decreases |queue|
      {
        var f := queue[0];
        queue := queue[1..];
        WriteToSocket(f, Head(left));
        left := Tail(left);
      }
    }

    method OnDrain(rs: seq<WriteResult>)
      modifies this
      ensures View() == Step(old(View()), Drained(rs))
    {
      paused, stallArmed := false, false;
      FlushQueue(rs);
    }

    method OnHeartbeatTick(body: string, r: WriteResult)
      modifies this
      ensures View() == Step(old(View()), Tick(body, r))
    {
      if closed {
        return;
      }
      if paused {
        if !retryArmed {
          retryArmed, retryDelayMs := true, RETRY_INITIAL_MS;
        }
        return;
      }
      SendMessage(Heartbeat, None, body, false, r);
    }

    /** The timer callback; it only runs while the timer is armed. */
    method OnHeartbeatRetry(body: string, r: WriteResult)
      requires retryArmed
      modifies this
      ensures View() == Step(old(View()), Retry(body, r))
    {
      retryArmed := false;
      if closed {
        return;
      }
      SendMessage(Heartbeat, None, body, true, r);
      if paused {
        retryDelayMs := Min(retryDelayMs * 2, RETRY_MAX_MS);
        retryArmed := true;
      }
    }
  }
}
