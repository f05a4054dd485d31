/** The host end of the call bridge (execproc/script.go bridgeHost): it reads the frame spool,
    dispatches the calls and writes the replies into the stdin pipe. */
module BridgeHost {
  import opened Messages
  import opened BridgeSandbox

  datatype ScriptCall = ScriptCall(id: nat, name: string, args: string, index: nat)
  /** A result of the dispatcher. `Broken` is a value that is no JSON at all; empty bytes are no value. */
  datatype ResultValue = NoValue | Json(v: Value) | Broken(text: string)
  datatype ScriptResult = ScriptResult(value: ResultValue, isError: bool)

  /** A line of the spool: what the script wrote itself, a call, the result frame of the exiting
      process, or the frame of an error nobody caught, behind which the script may go on. */
  datatype SpoolLine = Other | CallLine(frame: CallFrame) | ResultFrame | ErrorFrame

  /** Behind such a line the host closes its end. */
  predicate Terminal(l: SpoolLine) { l.ResultFrame? || l.ErrorFrame? }

  const NO_DETAIL := "the tool call failed (no error detail was provided)"

  predicate EmptyValue(v: ResultValue) { v == NoValue || v == Json(Raw("")) || v == Broken("") }

  /** scriptErrorText; a JSON null decodes into an empty text. */
  function ErrorText(v: ResultValue): string {
    if EmptyValue(v) then NO_DETAIL
    else match v
         case Json(Text(s)) => s
         case Json(Null) => ""
         case Json(Raw(json)) => json
         case Broken(text) => text
  }

  /** ensureJSON. */
  function Encoded(v: ResultValue): Option<Value> {
    if EmptyValue(v) then None
    else match v
         case Json(j) => Some(j)
         case Broken(text) => Some(Text(text))
  }

  /** The reply line of a result. An empty error text is left out of the line. */
  function ReplyLine(id: nat, r: ScriptResult): HostLine {
    if r.isError then Reply(id, if ErrorText(r.value) == "" then None else Some(ErrorText(r.value)), None)
    else Reply(id, None, Encoded(r.value))
  }

  /** What the script sees of a result. */
  function Seen(id: nat, r: ScriptResult): Outcome {
    var l := ReplyLine(id, r);
    Answer(l.error, l.result)
  }

  /** The script sees a failed call fail unless its value is a JSON null or the JSON string "". */
  lemma {:induction false} FailureSeenIff(id: nat, r: ScriptResult)
    ensures Seen(id, r).Rejected? <==> r.isError && r.value != Json(Null) && r.value != Json(Text(""))
    ensures r.isError && !Seen(id, r).Rejected? ==> Seen(id, r) == Resolved(None)
    ensures !r.isError ==> Seen(id, r) == Resolved(Encoded(r.value))
  {
  }

  /** With those two values a failed call looks like one that succeeded without a value. */
  lemma {:induction false} SilentFailures(id: nat)
    ensures Seen(id, ScriptResult(Json(Null), true)) == Seen(id, ScriptResult(NoValue, false))
    ensures Seen(id, ScriptResult(Json(Text("")), true)) == Seen(id, ScriptResult(NoValue, false))
  {
  }

  /** What the script sees of each kind of value, in words of its own. */
  lemma {:induction false} SeenByValue(id: nat, v: ResultValue)
    ensures Seen(id, ScriptResult(v, false)) == match v
              case NoValue => Resolved(None)
              case Json(Text(s)) => Resolved(Some(Text(s)))
              case Json(Null) => Resolved(Some(Null))
              case Json(Raw(json)) => if json == "" then Resolved(None) else Resolved(Some(Raw(json)))
              case Broken(text) => if text == "" then Resolved(None) else Resolved(Some(Text(text)))
    ensures Seen(id, ScriptResult(v, true)) == match v
              case NoValue => Rejected("the tool call failed (no error detail was provided)")
              case Json(Text(s)) => if s == "" then Resolved(None) else Rejected(s)
              case Json(Null) => Resolved(None)
              case Json(Raw(json)) =>
                Rejected(if json == "" then "the tool call failed (no error detail was provided)" else json)
              case Broken(text) =>
                Rejected(if text == "" then "the tool call failed (no error detail was provided)" else text)
  {
  }

  ghost predicate LineOk(l: HostLine, answers: map<nat, ScriptResult>) {
    match l
    case Reply(id, _, _) => id in answers && l == ReplyLine(id, answers[id])
    case Shutdown(_) => true
    case _ => false
  }

  lemma {:induction false} OthersInFlight(calls: seq<ScriptCall>, k: nat)
    requires k < |calls| && forall i, j | 0 <= i < j < |calls| :: calls[i].id != calls[j].id
    ensures var left := calls[..k] + calls[k + 1..];
            && (forall i, j | 0 <= i < j < |left| :: left[i].id != left[j].id)
            && (forall c | c in left :: c in calls && c.id != calls[k].id)
  {
    var left := calls[..k] + calls[k + 1..];
    forall i | 0 <= i < |left| ensures left[i] == calls[if i < k then i else i + 1] {}
  }

  class Host {
    var closed: bool
    var dispatchSeq: nat
    /** Calls handed to the dispatcher that have not been answered. */
    var inFlight: seq<ScriptCall>
    var pipe: seq<HostLine>
    ghost var dispatched: seq<ScriptCall>
    ghost var answers: map<nat, ScriptResult>

    constructor ()
      ensures !closed && dispatchSeq == 0 && inFlight == [] && pipe == [] && dispatched == [] && answers == map[]
    {
      closed, dispatchSeq, inFlight, pipe, dispatched, answers := false, 0, [], [], [], map[];
    }

    /** Calls are numbered in frame order, each is answered at most once, and only by its own id. */
    ghost predicate Valid()
      reads this
    {
      && dispatchSeq == |dispatched|
      && (forall i | 0 <= i < |dispatched| :: dispatched[i].index == i + 1)
      && (forall i, j | 0 <= i < j < |dispatched| :: dispatched[i].id != dispatched[j].id)
      && (forall i, j | 0 <= i < j < |inFlight| :: inFlight[i].id != inFlight[j].id)
      && (forall c | c in inFlight :: c in dispatched && c.id !in answers)
      && (forall id | id in answers :: exists i :: 0 <= i < |dispatched| && dispatched[i].id == id)
      && (forall l | l in pipe :: LineOk(l, answers))
    }

    method Write(l: HostLine, ok: bool)
      modifies `pipe, `closed
      ensures if !old(closed) && ok then pipe == old(pipe) + [l] && !closed
              else pipe == old(pipe) && closed
    {
      if closed {
        return;
      }
      if !ok {
        closed := true;
        return;
      }
      pipe := pipe + [l];
    }

    method CloseStdin()
      modifies `closed
      ensures closed
    {
      closed := true;
    }

    /** One line of the spool, in file order. */
    method OnLine(l: SpoolLine)
      requires Valid() && (l.CallLine? ==> forall c | c in dispatched :: c.id != l.frame.id)
      modifies `closed, `dispatchSeq, `inFlight, `dispatched
      ensures Valid()
      ensures l.CallLine? ==>
                && dispatched == old(dispatched) +
                   [ScriptCall(l.frame.id, l.frame.name, l.frame.args, old(dispatchSeq) + 1)]
                && inFlight == old(inFlight) + [dispatched[|old(dispatched)|]] && closed == old(closed)
      ensures !l.CallLine? ==> dispatched == old(dispatched) && inFlight == old(inFlight)
      ensures l.ResultFrame? || l.ErrorFrame? ==> closed
      ensures l.Other? ==> closed == old(closed)
    {
      match l {
        case Other =>
        case CallLine(frame) =>
          dispatchSeq := dispatchSeq + 1;
          var call := ScriptCall(frame.id, frame.name, frame.args, dispatchSeq);
          assert frame.id !in answers;
          dispatched := dispatched + [call];
          assert forall i | 0 <= i < |old(dispatched)| :: dispatched[i] == old(dispatched[i]);
          inFlight := inFlight + [call];
        case ResultFrame => CloseStdin();
        case ErrorFrame => CloseStdin();
      }
    }

    /** The dispatcher answers one of the calls in flight, whichever it finishes first. */
    method Respond(k: nat, r: ScriptResult, ok: bool)
      requires Valid() && k < |inFlight|
      modifies `inFlight, `pipe, `closed, `answers
      ensures Valid()
      ensures inFlight == old(inFlight)[..k] + old(inFlight)[k + 1..]
      ensures answers == old(answers)[old(inFlight[k].id) := r] && old(inFlight[k].id) !in old(answers)
      ensures if !old(closed) && ok then pipe == old(pipe) + [ReplyLine(old(inFlight[k].id), r)] && !closed
              else pipe == old(pipe) && closed
    {
      var c := inFlight[k];
      OthersInFlight(inFlight, k);
      ghost var before := answers;
      assert forall l | l in pipe :: LineOk(l, before[c.id := r]);
      answers := answers[c.id := r];
      inFlight := inFlight[..k] + inFlight[k + 1..];
      hide ReplyLine;
      Write(ReplyLine(c.id, r), ok);
    }

    method ShutDown(reason: string, ok: bool)
      requires Valid()
      modifies `pipe, `closed
      ensures Valid() && closed
      ensures pipe == if !old(closed) && ok then old(pipe) + [HostLine.Shutdown(reason)] else old(pipe)
    {
      Write(HostLine.Shutdown(reason), ok);
      CloseStdin();
    }

    /** The sandbox takes a line out of the pipe. */
    method Take() returns (l: HostLine)
      requires Valid() && pipe != []
      modifies `pipe
      ensures Valid() && l == old(pipe)[0] && pipe == old(pipe)[1..] && LineOk(l, answers)
    {
      l := pipe[0];
      assert forall x | x in pipe[1..] :: x in pipe;
      pipe := pipe[1..];
    }
  }
}
