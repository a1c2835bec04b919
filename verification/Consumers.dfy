/**
 * What one event-stream client gives to its consumer: ids that follow the newest ledger, a bounded wait, and
 * heartbeats that back off (src/api/stream.ts:69-91, 561-716).
 */
module Consumers {
  import opened Outcomes
  import opened Stream

  // Ids

  /** The newest ledger named up to now. */
  function Newest(ledger: nat, inputs: seq<Input>): nat {
    if inputs == [] then ledger
    else
      var n := |inputs| - 1;
      var newest := Newest(ledger, inputs[..n]);
      if inputs[n].Message? && inputs[n].ledger.Some? && inputs[n].ledger.value > newest then inputs[n].ledger.value
      else newest
  }

  lemma {:induction false} FlushKeepsIds(c: Client, rs: seq<WriteResult>)
    ensures Flush(c, rs).lastSentLedger == c.lastSentLedger && Flush(c, rs).produced == c.produced
    ensures c.closed ==> Flush(c, rs).closed
    decreases |c.queue|
  {
    if !c.paused && !c.closed && c.queue != [] {
      FlushKeepsIds(WriteFrame(c.(queue := c.queue[1..]), c.queue[0], Head(rs)), Tail(rs));
    }
  }

  /** While a client is open, its last id is the newest ledger named by any message or by its start. */
  lemma {:induction false} LastIdIsNewest(ledger: nat, inputs: seq<Input>)
    requires !Exec(ledger, inputs).closed
    ensures Exec(ledger, inputs).lastSentLedger == Newest(ledger, inputs)
  {
    if inputs != [] {
      var n := |inputs| - 1;
      var c := Exec(ledger, inputs[..n]);
      match inputs[n] {
        case Drained(rs) => FlushKeepsIds(c.(paused := false, stallArmed := false), rs);
        case _ =>
      }
      hide Flush;
      if !c.closed {
        LastIdIsNewest(ledger, inputs[..n]);
      }
    }
  }

  /** Every message to an open client becomes one frame of its kind, with its body and the newest ledger named so far;
      nothing else but heartbeats is ever produced. */
  lemma MessageBecomesItsFrame(ledger: nat, inputs: seq<Input>, i: Input)
    requires !Exec(ledger, inputs).closed
    ensures var c, c' := Exec(ledger, inputs), Exec(ledger, inputs + [i]);
            && (i.Message? ==>
                  var kind := if i.resync then Resync else Notification;
                  c'.produced == c.produced + [Frame(kind, Newest(ledger, inputs + [i]), i.body)])
            && (i.Tick? && !c.paused ==> c'.produced == c.produced + [Frame(Heartbeat, Newest(ledger, inputs), i.body)])
            && (i.Retry? && c.retryArmed ==>
                  c'.produced == c.produced + [Frame(Heartbeat, Newest(ledger, inputs), i.body)])
            && (!i.Message? && (i.Tick? ==> c.paused) && (i.Retry? ==> !c.retryArmed) ==> c'.produced == c.produced)
  {
    var c := Exec(ledger, inputs);
    ExecSnoc(ledger, inputs, i);
    LastIdIsNewest(ledger, inputs);
    assert (inputs + [i])[..|inputs|] == inputs;
    match i {
      case Drained(rs) => FlushKeepsIds(c.(paused := false, stallArmed := false), rs);
      case _ =>
    }
  }

  // What the socket's answers do

  /** An open client that is not paused hands the frame to the socket: it then waits, its stall timer armed, exactly if
      the socket said that it is full, and is closed exactly if the write threw on a destroyed socket. */
  lemma FreeClientWrites(c: Client, resync: bool, ledger: Option<nat>, body: string, r: WriteResult)
    requires !c.closed && !c.paused
    ensures var c' := Step(c, Message(resync, ledger, body, r));
            && (c'.paused <==> r == Full) && (r == Full ==> c'.stallArmed)
            && (c'.closed <==> r == Broken(true))
            && c'.queue == c.queue
            && c'.wire == if r.Broken? then c.wire else c.wire + [c'.produced[|c.produced|]]
  {
  }

  /** A 'drain' with a socket that takes every frame sends the whole queue, in order. */
  lemma {:induction false} FlushEmptiesTheQueue(c: Client, rs: seq<WriteResult>)
    requires !c.closed && !c.paused && forall k :: 0 <= k < |rs| ==> rs[k].Accepted?
    ensures Flush(c, rs).queue == [] && Flush(c, rs).wire == c.wire + c.queue
    ensures !Flush(c, rs).closed && !Flush(c, rs).paused
    decreases |c.queue|
  {
    if c.queue == [] {
      assert c.wire + c.queue == c.wire;
    } else {
      FlushEmptiesTheQueue(WriteFrame(c.(queue := c.queue[1..]), c.queue[0], Head(rs)), Tail(rs));
      assert c.wire + c.queue == c.wire + [c.queue[0]] + c.queue[1..];
    }
  }

  lemma DrainSendsTheQueue(c: Client, rs: seq<WriteResult>)
    requires !c.closed && forall k :: 0 <= k < |rs| ==> rs[k].Accepted?
    ensures var c' := Step(c, Drained(rs));
            && c'.queue == [] && c'.wire == c.wire + c.queue && !c'.closed && !c'.paused && !c'.stallArmed
  {
    FlushEmptiesTheQueue(c.(paused := false, stallArmed := false), rs);
    FlushDisarms(c.(paused := false, stallArmed := false), rs);
  }

  lemma {:induction false} FlushDisarms(c: Client, rs: seq<WriteResult>)
    requires !c.stallArmed && !c.closed && !c.paused && forall k :: 0 <= k < |rs| ==> rs[k].Accepted?
    ensures !Flush(c, rs).stallArmed
    decreases |c.queue|
  {
    if c.queue != [] {
      FlushDisarms(WriteFrame(c.(queue := c.queue[1..]), c.queue[0], Head(rs)), Tail(rs));
    }
  }

  // A consumer that cannot keep up

  /** The stall timer closes the client it is armed for, and so does a hangup: nothing is kept and no timer is left.
      A timer that is not armed does nothing. */
  lemma StallClosesTheClient(ledger: nat, inputs: seq<Input>, i: Input)
    requires i.Stalled? || i.Hangup?
    ensures var c, c' := Exec(ledger, inputs), Exec(ledger, inputs + [i]);
            if i.Hangup? || c.stallArmed
            then c'.closed && c'.released && c'.queue == [] && !c'.stallArmed && !c'.retryArmed && c'.wire == c.wire
            else c' == c
  {
    ExecSnoc(ledger, inputs, i);
    InvHolds(ledger, inputs);
  }

  /** A paused client keeps every message waiting, up to two hundred, and the next one closes it. */
  lemma {:induction false} FloodClosesTheClient(ledger: nat, before: seq<Input>, flood: seq<Input>)
    requires !Exec(ledger, before).closed && Exec(ledger, before).paused
    requires forall k :: 0 <= k < |flood| ==> flood[k].Message?
    ensures var c, c' := Exec(ledger, before), After(Exec(ledger, before), flood);
            && (c'.closed <==> |c.queue| + |flood| > 200)
            && (c'.closed <==> c'.released) && (c'.closed ==> c'.queue == [])
            && (!c'.closed ==> c'.paused && c.queue <= c'.queue && |c'.queue| == |c.queue| + |flood|)
            && c'.wire == c.wire
  {
    InvHolds(ledger, before);
    if flood != [] {
      var n := |flood| - 1;
      FloodClosesTheClient(ledger, before, flood[..n]);
      assert flood[n].Message?;
    }
  }

  // Heartbeats

  function Doublings(n: nat): nat {
    if n == 0 then 1000 else 2 * Doublings(n - 1)
  }

  /** A heartbeat due while the client is paused arms the retry, one second away, unless it is armed already. */
  lemma PausedTickArmsTheRetry(c: Client, body: string, r: WriteResult)
    requires !c.closed && c.paused
    ensures var c' := Step(c, Tick(body, r));
            && c'.retryArmed && (!c.retryArmed ==> c'.retryDelayMs == 1000) && (c.retryArmed ==> c' == c)
            && c'.wire == c.wire && c'.queue == c.queue && c'.produced == c.produced
  {
  }

  /** Each retry that finds the socket still full doubles the delay, up to sixteen seconds. */
  lemma {:induction false} RetriesBackOff(c: Client, retries: seq<Input>)
    requires !c.closed && c.paused && c.retryArmed && c.retryDelayMs == 1000
    requires forall k :: 0 <= k < |retries| ==> retries[k].Retry? && retries[k].result == Full
    ensures var c' := After(c, retries);
            && !c'.closed && c'.paused && c'.retryArmed && c'.queue == c.queue
            && |c'.wire| == |c.wire| + |retries|
            && c'.retryDelayMs == if Doublings(|retries|) < 16000 then Doublings(|retries|) else 16000
  {
    if retries != [] {
      var n := |retries| - 1;
      RetriesBackOff(c, retries[..n]);
      assert retries[n].Retry? && retries[n].result == Full;
    }
  }

  /** An accepted retry ends the backing off. */
  lemma AcceptedRetryUnpauses(c: Client, body: string)
    requires !c.closed && c.retryArmed
    ensures var c' := Step(c, Retry(body, Accepted));
            !c'.paused && !c'.stallArmed && !c'.retryArmed && !c'.closed && c'.queue == c.queue
  {
  }
}
