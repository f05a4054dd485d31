/** Every interleaving of the two ends of the call bridge. */
module Bridge {
  import opened Messages
  import opened BridgeSandbox
  import opened BridgeHost

  /** What can happen next. A step that is not possible in a state does nothing. Behind `Exits` the
      process is about to be gone; whatever the sandbox is let do from then on only adds runs. */
  datatype Step = ScriptStarts
                | ScriptEnds
                | Calls(name: string, args: Args, lineBytes: nat, written: bool)
                | Prints
                | Exits
                | Errs
                | HostReads
                | HostAnswers(k: nat, r: ScriptResult, ok: bool)
                | HostShutsDown(reason: string, ok: bool)
                | Delivers
                | InputEnds

  function Frames(spool: seq<SpoolLine>): seq<CallFrame> {
    if spool == [] then []
    else
      var l := spool[|spool| - 1];
      Frames(spool[..|spool| - 1]) + if l.CallLine? then [l.frame] else []
  }

  lemma {:induction false} FramesSnoc(spool: seq<SpoolLine>, l: SpoolLine)
    ensures Frames(spool + [l]) == Frames(spool) + if l.CallLine? then [l.frame] else []
  {
    assert (spool + [l])[..|spool|] == spool;
  }

  lemma {:induction false} FramesGrow(spool: seq<SpoolLine>, n: nat)
    requires n <= |spool|
    ensures Frames(spool[..n]) <= Frames(spool)
    decreases |spool|
  {
    if n < |spool| {
      FramesGrow(spool[..|spool| - 1], n);
      assert spool[..|spool| - 1][..n] == spool[..n];
    } else {
      assert spool[..n] == spool;
    }
  }

  /** The calls the host has dispatched are the frames it has read, numbered in frame order. */
  ghost predicate InFrameOrder(dispatched: seq<ScriptCall>, read: seq<CallFrame>) {
    && |dispatched| == |read|
    && forall i | 0 <= i < |read| :: dispatched[i] == ScriptCall(read[i].id, read[i].name, read[i].args, i + 1)
  }

  /** A promise settled as the reply for its own id says, or by the closing of the channel. */
  ghost predicate SettledRightly(p: Promise, answers: map<nat, ScriptResult>, closed: bool) {
    p.settled != [] && p.id.Some? ==>
      || (p.id.value in answers && p.settled[0] == OwnAnswer(p.id.value, answers[p.id.value]))
      || (closed && p.settled[0].Rejected?)
  }

  function OwnAnswer(id: nat, r: ScriptResult): Outcome {
    var l := ReplyLine(id, r);
    Answer(l.error, l.result)
  }

  lemma {:induction false} NotYetSettled(p: Promise, answers: map<nat, ScriptResult>, closed: bool)
    requires p.settled == [] || p.id.None?
    ensures SettledRightly(p, answers, closed)
  {
  }

  lemma {:induction false} MoreAnswers(promises: seq<Promise>, answers: map<nat, ScriptResult>,
                                       more: map<nat, ScriptResult>, closed: bool)
    requires forall k | 0 <= k < |promises| :: SettledRightly(promises[k], answers, closed)
    requires forall id | id in answers :: id in more && more[id] == answers[id]
    ensures forall k | 0 <= k < |promises| :: SettledRightly(promises[k], more, closed)
  {
  }

  /** Once the input has ended, only calls made after that, on a channel never closed, can be unsettled. */
  ghost predicate LateOnly(promises: seq<Promise>, closedReason: string, atEnd: nat) {
    atEnd <= |promises| && forall k | 0 <= k < |promises| && promises[k].settled == [] ::
      atEnd <= k && closedReason == ""
  }

  class Bridge {
    const sandbox: Sandbox
    const host: Host
    var spool: seq<SpoolLine>
    var readTo: nat
    var inputEnded: bool
    /** How many promises the script held when the input ended. */
    ghost var atEnd: nat

    constructor ()
      ensures Valid() && fresh(sandbox) && fresh(host) && sandbox.promises == [] && host.dispatched == []
      ensures spool == [] && readTo == 0 && !inputEnded && host.pipe == [] && sandbox.pending == [] &&
              sandbox.closedReason == ""
    {
      sandbox := new Sandbox();
      host := new Host();
      spool, readTo, inputEnded, atEnd := [], 0, false, 0;
    }

    ghost predicate Valid()
      reads this, sandbox, host
    {
      && sandbox.Valid() && host.Valid()
      && readTo <= |spool| && Frames(spool) == sandbox.sent
      && InFrameOrder(host.dispatched, Frames(spool[..readTo]))
      && (forall k | 0 <= k < |sandbox.promises| ::
            SettledRightly(sandbox.promises[k], host.answers, sandbox.closedReason != ""))
      && (inputEnded ==> host.closed && host.pipe == [] && LateOnly(sandbox.promises, sandbox.closedReason, atEnd))
    }

    /** What no step ever undoes. */
    twostate predicate Keeps()
      reads this, sandbox, host
    {
      && |old(sandbox.promises)| <= |sandbox.promises|
      && (forall k | 0 <= k < |old(sandbox.promises)| :: sandbox.promises[k].id == old(sandbox.promises[k].id) &&
            (old(sandbox.promises[k].settled) != [] ==> sandbox.promises[k] == old(sandbox.promises[k])))
      && (old(sandbox.closedReason) != "" ==>
          sandbox.closedReason == old(sandbox.closedReason) && sandbox.pending == [])
      && old(host.dispatched) <= host.dispatched
      && (!old(inputEnded) && inputEnded ==> |old(sandbox.promises)| <= atEnd)
      && (old(inputEnded) ==>
            && inputEnded && atEnd == old(atEnd)
            && forall k | 0 <= k < |old(sandbox.promises)| :: sandbox.promises[k] == old(sandbox.promises[k]))
    }

    method Act(step: Step)
      requires Valid()
      modifies this, sandbox, host
      ensures Valid() && Keeps()
    {
      match step {
        case ScriptStarts => sandbox.ScriptStarts();
        case ScriptEnds => sandbox.ScriptEnds();
        case Calls(name, args, lineBytes, written) => Call(name, args, lineBytes, written);
        case Prints => Spool(Other);
        case Exits => Spool(ResultFrame);
        case Errs => Spool(ErrorFrame);
        case HostReads => HostRead();
        case HostAnswers(k, r, ok) => HostAnswer(k, r, ok);
        case HostShutsDown(reason, ok) => HostShutDown(reason, ok);
        case Delivers => Deliver();
        case InputEnds => EndInput();
      }
    }

    /** Any run: what is settled stays settled, the channel once closed stays closed, the dispatched
        calls only grow in frame order. If the input ends in it, every promise made before the run is
        settled; once it has ended, no call is ever settled again. */
    method Run(steps: seq<Step>)
      requires Valid()
      modifies this, sandbox, host
      ensures Valid() && Keeps()
      ensures !old(inputEnded) && inputEnded ==>
              forall k | 0 <= k < |old(sandbox.promises)| :: sandbox.promises[k].settled != []
    {
      for i := 0 to |steps|
        invariant Valid() && Keeps()
      {
        Act(steps[i]);
      }
    }

    method Spool(l: SpoolLine)
      requires Valid() && !l.CallLine?
      modifies `spool
      ensures Valid() && spool == old(spool) + [l]
    {
      FramesSnoc(spool, l);
      assert (spool + [l])[..readTo] == spool[..readTo];
      spool := spool + [l];
    }

    /** The script calls a tool; a frame that is written is at once a line of the spool. */
    method Call(name: string, args: Args, lineBytes: nat, written: bool)
      requires Valid()
      modifies `spool, sandbox
      ensures Valid() && Keeps() && |sandbox.promises| == |old(sandbox.promises)| + 1
      ensures sandbox.promises[|old(sandbox.promises)|].settled == [] <==> old(sandbox.Sends(args, lineBytes, written))
      ensures old(sandbox.Sends(args, lineBytes, written)) ==>
                && spool == old(spool) +
                     [CallLine(CallFrame(sandbox.seq_, name, if args.Absent? then "{}" else args.json))]
                && sandbox.promises[|old(sandbox.promises)|] == Promise(Some(sandbox.seq_), [])
                && sandbox.seq_ in sandbox.pending
      ensures !old(sandbox.Sends(args, lineBytes, written)) ==> spool == old(spool)
    {
      hide Table, SettledRightly, InFrameOrder, Frames, LineOk;
      var sent := sandbox.sent;
      ghost var k := sandbox.CallTool(name, args, lineBytes, written);
      assert old(sandbox.closedReason) != "" ==> sandbox.pending == [];
      assert forall j | 0 <= j < k :: sandbox.promises[j] == old(sandbox.promises[j]);
      NotYetSettled(sandbox.promises[k], host.answers, sandbox.closedReason != "");
      if |sandbox.sent| > |sent| {
        var l := CallLine(sandbox.sent[|sandbox.sent| - 1]);
        FramesSnoc(spool, l);
        assert (spool + [l])[..readTo] == spool[..readTo];
        spool := spool + [l];
      }
    }

    /** Whether the promise of a call is settled at once. */
    method CallOnce(name: string, args: Args, lineBytes: nat, written: bool)
      requires Valid()
      modifies this, sandbox
      ensures Valid() && Keeps() && |sandbox.promises| == |old(sandbox.promises)| + 1
      ensures sandbox.promises[|old(sandbox.promises)|].settled == [] <==> old(sandbox.Sends(args, lineBytes, written))
      ensures inputEnded == old(inputEnded)
    {
      hide Valid, Keeps;
      Call(name, args, lineBytes, written);
    }

    /** The host reads the next line of the spool. */
    method HostRead()
      requires Valid()
      modifies `readTo, host
      ensures Valid() && Keeps() && host.pipe == old(host.pipe)
      ensures readTo == if old(readTo) < |spool| then old(readTo) + 1 else old(readTo)
      ensures host.closed <==> old(host.closed) || (old(readTo) < |spool| && Terminal(spool[old(readTo)]))
      ensures host.inFlight == old(host.inFlight) +
                if old(readTo) < |spool| && spool[old(readTo)].CallLine? then
                  var frame := spool[old(readTo)].frame;
                  [ScriptCall(frame.id, frame.name, frame.args, |old(host.dispatched)| + 1)]
                else []
    {
      hide SettledRightly, LineOk, Frames;
      if readTo == |spool| {
        return;
      }
      var l := spool[readTo];
      assert spool[..readTo + 1] == spool[..readTo] + [l];
      FramesSnoc(spool[..readTo], l);
      FramesGrow(spool, readTo + 1);
      if l.CallLine? { NewFrame(host.dispatched, Frames(spool[..readTo]), sandbox.sent, l.frame); }
      host.OnLine(l);
      readTo := readTo + 1;
    }

    method HostAnswer(k: nat, r: ScriptResult, ok: bool)
      requires Valid()
      modifies host
      ensures Valid() && Keeps()
      ensures k >= |old(host.inFlight)| ==> host.pipe == old(host.pipe) && host.inFlight == old(host.inFlight)
      ensures k < |old(host.inFlight)| ==>
                && host.inFlight == old(host.inFlight)[..k] + old(host.inFlight)[k + 1..]
                && host.pipe == old(host.pipe) +
                     if !old(host.closed) && ok && !inputEnded then [ReplyLine(old(host.inFlight)[k].id, r)] else []
    {
      if k >= |host.inFlight| {
        return;
      }
      hide ReplyLine, InFrameOrder, Frames, Table, LineOk, LateOnly, SettledRightly;
      ghost var answers := host.answers;
      host.Respond(k, r, ok && !inputEnded);
      MoreAnswers(sandbox.promises, answers, host.answers, sandbox.closedReason != "");
    }

    method HostShutDown(reason: string, ok: bool)
      requires Valid()
      modifies host
      ensures Valid() && Keeps() && host.closed
    {
      host.ShutDown(reason, ok && !inputEnded);
    }

    /** The sandbox receives the next line of the pipe. */
    method Deliver()
      requires Valid()
      modifies host, sandbox
      ensures Valid() && Keeps() && host.closed == old(host.closed)
      ensures host.pipe == if old(host.pipe) == [] then [] else old(host.pipe)[1..]
      ensures old(host.pipe) != [] && old(host.pipe)[0].Shutdown? ==>
              sandbox.closedReason != "" && sandbox.pending == []
      ensures old(host.pipe) != [] && old(host.pipe)[0].Reply? ==>
                var l := old(host.pipe)[0];
                |sandbox.promises| == |old(sandbox.promises)| && forall k | 0 <= k < |sandbox.promises| ::
                  sandbox.promises[k] == if old(sandbox.promises)[k] == Promise(Some(l.id), [])
                                         then Promise(Some(l.id), [Answer(l.error, l.result)])
                                         else old(sandbox.promises)[k]
    {
      if |host.pipe| == 0 {
        return;
      }
      hide Table, InFrameOrder, Frames;
      ghost var before := sandbox.promises;
      var l := host.Take();
      sandbox.Handle(l);
      hide ReplyLine, Answer;
      forall k | 0 <= k < |before|
        ensures SettledRightly(sandbox.promises[k], host.answers, sandbox.closedReason != "")
      {
        assert SettledRightly(before[k], host.answers, old(sandbox.closedReason) != "");
      }
    }

    /** The host has closed its end and the sandbox has read everything: whatever was in flight is
        rejected. A quiet end, with nothing in flight, leaves no trace. */
    method EndInput()
      requires Valid()
      modifies `inputEnded, `atEnd, sandbox
      ensures Valid() && Keeps()
      ensures inputEnded <==> old(inputEnded) || (host.closed && host.pipe == [])
      ensures inputEnded && !old(inputEnded) ==>
                atEnd == |sandbox.promises| == |old(sandbox.promises)| && forall k | 0 <= k < atEnd ::
                  sandbox.promises[k].settled != []
      ensures old(sandbox.pending) == [] ==>
              sandbox.promises == old(sandbox.promises) && sandbox.closedReason == old(sandbox.closedReason)
    {
      if inputEnded || !host.closed || |host.pipe| > 0 {
        return;
      }
      inputEnded, atEnd := true, |sandbox.promises|;
      sandbox.EndOfInput();
    }

    /** The host winds down: shutdown, the sandbox reads what is still in the pipe, the input ends. */
    method WindDown(reason: string, ok: bool)
      requires Valid()
      modifies this, sandbox, host
      ensures Valid() && Keeps() && inputEnded
      ensures !old(inputEnded) ==> forall k | 0 <= k < |old(sandbox.promises)| :: sandbox.promises[k].settled != []
    {
      hide SettledRightly, InFrameOrder, Frames;
      HostShutDown(reason, ok);
      while |host.pipe| > 0
        invariant Valid() && Keeps() && host.closed && inputEnded == old(inputEnded)
        decreases |host.pipe|
      {
        Deliver();
      }
      EndInput();
    }

    /** Whatever happens after a call, once the host has wound down the promise is settled if and only
        if the call was refused on the spot or the input had not ended when it was made. */
    method SettledIffInputOpen(name: string, args: Args, lineBytes: nat, written: bool, steps: seq<Step>,
                               reason: string, ok: bool)
      returns (ghost k: nat)
      requires Valid()
      modifies this, sandbox, host
      ensures Valid() && k == |old(sandbox.promises)| < |sandbox.promises|
      ensures sandbox.promises[k].settled != [] <==> !old(sandbox.Sends(args, lineBytes, written)) || !old(inputEnded)
    {
      k := |sandbox.promises|;
      hide Valid;
      CallOnce(name, args, lineBytes, written);
      Run(steps);
      WindDown(reason, ok);
    }

    /** A call is made and the host reads it. */
    method CallAndRead(name: string, args: Args, lineBytes: nat)
      requires Valid() && sandbox.Sends(args, lineBytes, true) && readTo == |spool|
      modifies this, sandbox, host
      ensures Valid() && |sandbox.promises| == |old(sandbox.promises)| + 1
      ensures host.closed == old(host.closed) && inputEnded == old(inputEnded) && host.pipe == old(host.pipe)
      ensures host.inFlight != []
      ensures sandbox.promises[|old(sandbox.promises)|] == Promise(Some(host.inFlight[|host.inFlight| - 1].id), [])
    {
      hide Valid, Keeps;
      Call(name, args, lineBytes, true);
      assert spool[|spool| - 1].CallLine?;
      HostRead();
    }

    /** A call that is read, answered and delivered while the channel is open gets its own answer. */
    method CallIsAnswered(name: string, args: Args, lineBytes: nat, r: ScriptResult) returns (ghost k: nat)
      requires Valid() && sandbox.Sends(args, lineBytes, true)
      requires !host.closed && !inputEnded && readTo == |spool| && host.pipe == []
      modifies this, sandbox, host
      ensures Valid() && k == |old(sandbox.promises)| < |sandbox.promises| && sandbox.promises[k].id.Some?
      ensures sandbox.promises[k].settled == [Seen(sandbox.promises[k].id.value, r)]
    {
      hide Valid, Keeps, Answer, Terminal;
      k := |sandbox.promises|;
      CallAndRead(name, args, lineBytes);
      HostAnswer(|host.inFlight| - 1, r, true);
      Deliver();
    }

    /** A call made after the host's end was closed while nothing was in flight is sent to nobody: it
        is never settled, and keeps the process alive. */
    method CallAfterQuietEnd(name: string, args: Args, lineBytes: nat, steps: seq<Step>) returns (ghost k: nat)
      requires Valid() && inputEnded && sandbox.Sends(args, lineBytes, true)
      modifies this, sandbox, host
      ensures Valid() && k < |sandbox.promises| && sandbox.promises[k].settled == [] && sandbox.armed
    {
      k := |sandbox.promises|;
      Call(name, args, lineBytes, true);
      Run(steps);
    }
  }

  /** Such a bridge is reached when a promise of the script is rejected unhandled while no call is in
      flight: the script goes on, but the host reads the error frame and closes its end, the input
      ends, and what the script calls from then on hangs. */
  method FailedScriptHangs(name: string, args: Args, lineBytes: nat, steps: seq<Step>) returns (b: Bridge, ghost k: nat)
    requires (args.Absent? || args.Object?) && lineBytes <= MAX_LINE_BYTES
    ensures b.Valid() && k < |b.sandbox.promises| && b.sandbox.promises[k].settled == [] && b.sandbox.armed
  {
    b := new Bridge();
    b.Spool(ErrorFrame);
    b.HostRead();
    b.EndInput();
    k := b.CallAfterQuietEnd(name, args, lineBytes, steps);
  }

  lemma {:induction false} NewFrame(dispatched: seq<ScriptCall>, read: seq<CallFrame>, sent: seq<CallFrame>,
                                    frame: CallFrame)
    requires InFrameOrder(dispatched, read) && read + [frame] <= sent
    requires forall i, j | 0 <= i < j < |sent| :: sent[i].id < sent[j].id
    ensures forall c | c in dispatched :: c.id != frame.id
  {
    forall c | c in dispatched ensures c.id != frame.id {
      var i :| 0 <= i < |dispatched| && dispatched[i] == c;
      assert read[i] == (read + [frame])[i] == sent[i] && sent[|read|] == (read + [frame])[|read|];
    }
  }
}
