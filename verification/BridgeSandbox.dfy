/** The sandbox end of the call bridge (execproc/prelude_bridge.js): the table of calls in flight,
    the replies, and the condition that keeps the process alive. */
module BridgeSandbox {
  import opened Messages

  /** A call as it travels to the host; ids are String(seq). */
  datatype CallFrame = CallFrame(id: nat, name: string, args: string)

  /** A value on its way to the script: JSON of some shape, or nothing. */
  datatype Value = Text(s: string) | Null | Raw(json: string)

  /** One line of the host, decoded. */
  datatype HostLine = Empty
                    | Undecodable
                    | Reply(id: nat, error: Option<string>, result: Option<Value>)
                    | Shutdown(reason: string)
                    | UnknownNotify(notify: string)

  /** What a script passes to a tool: its JSON text when it is an object, with the length of the line. */
  datatype Args = Absent | Object(json: string) | Primitive | Cyclic

  datatype Outcome = Resolved(value: Option<Value>) | Rejected(error: string)

  /** A promise handed to the script: the id its call was sent under, and every settling it received. */
  datatype Promise = Promise(id: Option<nat>, settled: seq<Outcome>)

  const MAX_LINE_BYTES := 4 * 1024 * 1024 - 1024

  function Without(ids: seq<nat>, id: nat): (left: seq<nat>)
    ensures forall x | x in left :: x in ids
    ensures |left| <= |ids|
  {
    if ids == [] then [] else (if ids[0] == id then [] else [ids[0]]) + Without(ids[1..], id)
  }

  predicate Distinct(ids: seq<nat>) { forall i, j | 0 <= i < j < |ids| :: ids[i] != ids[j] }

  lemma {:induction false} WithoutIs(ids: seq<nat>, id: nat)
    requires Distinct(ids)
    ensures Distinct(Without(ids, id))
    ensures forall x :: x in Without(ids, id) <==> x in ids && x != id
  {
    if ids != [] {
      assert forall i, j | 0 <= i < j < |ids[1..]| :: ids[1..][i] == ids[i + 1] && ids[1..][j] == ids[j + 1];
      WithoutIs(ids[1..], id);
      var left := Without(ids[1..], id);
      assert Without(ids, id) == (if ids[0] == id then [] else [ids[0]]) + left;
      assert ids == [ids[0]] + ids[1..] && ids[0] !in ids[1..];
      assert ids[0] !in left;
    }
  }

  /** Every call in flight belongs to one unsettled promise, every other promise has been settled
      once, and the frames sent carry increasing ids, those in flight among them. */
  ghost predicate Table(pending: seq<nat>, top: nat, sent: seq<CallFrame>, promises: seq<Promise>,
                        owner: map<nat, nat>) {
    && Distinct(pending)
    && (forall id | id in pending :: id in owner)
    && (forall id | id in owner :: 1 <= id <= top && owner[id] < |promises| && promises[owner[id]].id == Some(id))
    && (forall k | 0 <= k < |promises| :: PromiseOk(pending, promises[k], k, owner))
    && (forall i | 0 <= i < |sent| :: sent[i].id in owner)
    && (forall i, j | 0 <= i < j < |sent| :: sent[i].id < sent[j].id)
    && (forall id | id in pending :: exists i :: 0 <= i < |sent| && sent[i].id == id)
  }

  ghost predicate PromiseOk(pending: seq<nat>, p: Promise, k: nat, owner: map<nat, nat>) {
    && |p.settled| <= 1
    && (p.settled == [] <==> p.id.Some? && p.id.value in pending)
    && (p.id.Some? ==> p.id.value in owner && owner[p.id.value] == k)
  }

  lemma {:induction false} TableRejected(pending: seq<nat>, top: nat, sent: seq<CallFrame>, promises: seq<Promise>,
                                         owner: map<nat, nat>,
                                         after: seq<Promise>, o: Outcome)
    requires Table(pending, top, sent, promises, owner) && |after| == |promises|
    requires forall k | 0 <= k < |promises| ::
             after[k] == if promises[k].settled == [] then promises[k].(settled := [o]) else promises[k]
    ensures Table([], top, sent, after, owner)
  {
    forall k | 0 <= k < |after| ensures PromiseOk([], after[k], k, owner) {
      assert PromiseOk(pending, promises[k], k, owner);
    }
  }

  lemma {:induction false} TableSettled(pending: seq<nat>, top: nat, sent: seq<CallFrame>, promises: seq<Promise>,
                                        owner: map<nat, nat>,
                                        id: nat, o: Outcome)
    requires Table(pending, top, sent, promises, owner) && id in pending
    ensures id in owner && owner[id] < |promises| && promises[owner[id]] == Promise(Some(id), [])
    ensures Table(Without(pending, id), top, sent, promises[owner[id] := Promise(Some(id), [o])], owner)
  {
    WithoutIs(pending, id);
    var k := owner[id];
    assert PromiseOk(pending, promises[k], k, owner);
    var after := promises[k := Promise(Some(id), [o])];
    forall i | 0 <= i < |after| ensures PromiseOk(Without(pending, id), after[i], i, owner) {
      assert PromiseOk(pending, promises[i], i, owner);
    }
  }

  /** The unsettled promise of an id is the one its table entry belongs to. */
  lemma {:induction false} OwnPromise(pending: seq<nat>, top: nat, sent: seq<CallFrame>, promises: seq<Promise>,
                                      owner: map<nat, nat>, id: nat)
    requires Table(pending, top, sent, promises, owner)
    ensures id in pending ==> id in owner && owner[id] < |promises|
    ensures forall k | 0 <= k < |promises| ::
              promises[k] == Promise(Some(id), []) <==> id in pending && id in owner && owner[id] == k
  {
    forall k | 0 <= k < |promises|
      ensures promises[k] == Promise(Some(id), []) <==> id in pending && id in owner && owner[id] == k
    {
      assert PromiseOk(pending, promises[k], k, owner);
    }
  }

  lemma {:induction false} TableGrows(pending: seq<nat>, top: nat, sent: seq<CallFrame>, promises: seq<Promise>,
                                      owner: map<nat, nat>,
                                      top': nat, o: Outcome)
    requires Table(pending, top, sent, promises, owner) && top <= top'
    ensures Table(pending, top', sent, promises + [Promise(None, [o])], owner)
  {
    var after := promises + [Promise(None, [o])];
    forall k | 0 <= k < |after| ensures PromiseOk(pending, after[k], k, owner) {
      if k < |promises| { assert PromiseOk(pending, promises[k], k, owner); }
    }
  }

  lemma {:induction false} NewIdIsAbsent(pending: seq<nat>, top: nat, sent: seq<CallFrame>, promises: seq<Promise>,
                                         owner: map<nat, nat>)
    requires Table(pending, top, sent, promises, owner)
    ensures top + 1 !in pending && top + 1 !in owner
  {
  }

  lemma {:induction false} TableSends(pending: seq<nat>, top: nat, sent: seq<CallFrame>, promises: seq<Promise>,
                                      owner: map<nat, nat>,
                                      frame: CallFrame)
    requires Table(pending, top, sent, promises, owner) && frame.id == top + 1
    ensures Table(pending + [frame.id], top + 1, sent + [frame], promises + [Promise(Some(frame.id), [])],
                  owner[frame.id := |promises|])
  {
    var after, now := promises + [Promise(Some(frame.id), [])], owner[frame.id := |promises|];
    forall k | 0 <= k < |after| ensures PromiseOk(pending + [frame.id], after[k], k, now) {
      if k < |promises| { assert PromiseOk(pending, promises[k], k, owner); }
    }
    forall id | id in pending + [frame.id]
      ensures exists i :: 0 <= i < |sent + [frame]| && (sent + [frame])[i].id == id
    {
      if id == frame.id {
        assert (sent + [frame])[|sent|].id == id;
      } else {
        var i :| 0 <= i < |sent| && sent[i].id == id;
        assert (sent + [frame])[i].id == id;
      }
    }
  }

  class Sandbox {
    /** Ids of the calls in flight, in the order they were made. */
    var pending: seq<nat>
    var armed: bool
    var scriptRunning: bool
    var closedReason: string
    var seq_: nat
    var sent: seq<CallFrame>
    ghost var promises: seq<Promise>
    ghost var owner: map<nat, nat>

    constructor ()
      ensures Valid() && pending == [] && !scriptRunning && closedReason == "" && sent == [] && promises == []
    {
      pending, armed, scriptRunning, closedReason, seq_, sent := [], false, false, "", 0, [];
      promises, owner := [], map[];
    }

    ghost predicate Valid()
      reads this
    {
      && Table(pending, seq_, sent, promises, owner)
      && armed == (scriptRunning || pending != [])
      && (closedReason != "" ==> pending == [])
    }

    /** A settled promise stays as it is; only unsettled ones may gain an outcome. */
    twostate predicate SettlesOnce()
      reads this
    {
      && |old(promises)| <= |promises|
      && forall k | 0 <= k < |old(promises)| :: promises[k].id == old(promises[k].id) &&
                                                (old(promises[k].settled) != [] ==> promises[k] == old(promises[k]))
    }

    method SyncKeepAlive()
      modifies `armed
      ensures armed == (scriptRunning || pending != [])
    {
      if scriptRunning || |pending| > 0 {
        armed := true;
      } else {
        armed := false;
      }
    }

    method ScriptStarts()
      requires Valid()
      modifies `scriptRunning, `armed
      ensures Valid() && scriptRunning
    {
      scriptRunning := true;
      SyncKeepAlive();
    }

    method ScriptEnds()
      requires Valid()
      modifies `scriptRunning, `armed
      ensures Valid() && !scriptRunning
    {
      scriptRunning := false;
      SyncKeepAlive();
    }

    /** Takes all calls out of the table and rejects them. */
    method FailAllPending(reason: string)
      requires Valid() && reason != ""
      modifies `closedReason, `pending, `armed, `promises
      ensures Valid() && SettlesOnce() && pending == [] && |promises| == |old(promises)|
      ensures closedReason == if old(closedReason) != "" then old(closedReason) else reason
      ensures forall k | 0 <= k < |promises| :: promises[k] ==
                if old(promises[k].settled) == [] then old(promises[k]).(settled := [Rejected(reason)])
                   else old(promises[k])
    {
      if closedReason == "" { closedReason := reason; }
      var victims := pending;
      ghost var before := promises;
      pending := [];
      SyncKeepAlive();
      RejectEach(victims, reason);
      hide RejectedSome;
      RejectedAll(before, owner, victims, reason);
      TableRejected(victims, seq_, sent, before, owner, promises, Rejected(reason));
    }

    method RejectEach(victims: seq<nat>, reason: string)
      requires forall id | id in victims :: id in owner && owner[id] < |promises|
      modifies `promises
      ensures promises == RejectedSome(old(promises), owner, victims, reason)
    {
      ghost var before := promises;
      for i := 0 to |victims|
        invariant promises == RejectedSome(before, owner, victims[..i], reason)
      {
        assert victims[..i + 1][..i] == victims[..i];
        ghost var k := owner[victims[i]];
        promises := promises[k := promises[k].(settled := promises[k].settled + [Rejected(reason)])];
      }
      assert victims[..|victims|] == victims;
    }

    /** A reply for a call in flight. */
    method Settle(id: nat, error: Option<string>, result: Option<Value>)
      requires Valid() && id in pending
      modifies `pending, `armed, `promises
      ensures Valid() && SettlesOnce() && pending == Without(old(pending), id)
      ensures promises == old(promises)[owner[id] := Promise(Some(id), [Answer(error, result)])]
    {
      hide Table;
      TableSettled(pending, seq_, sent, promises, owner, id, Answer(error, result));
      pending := Without(pending, id);
      SyncKeepAlive();
      ghost var k := owner[id];
      assert promises[k].settled + [Answer(error, result)] == [Answer(error, result)];
      promises := promises[k := promises[k].(settled := promises[k].settled + [Answer(error, result)])];
    }

    /** One line of the host. */
    method Handle(line: HostLine)
      requires Valid()
      modifies `closedReason, `pending, `armed, `promises
      ensures Valid() && SettlesOnce() && |promises| == |old(promises)|
      ensures line.Empty? || (line.Reply? && line.id !in old(pending)) ==>
              promises == old(promises) && pending == old(pending)
      ensures line.Reply? || line.Empty? || old(closedReason) != "" ==> closedReason == old(closedReason)
      ensures line.Reply? && line.id in old(pending) ==>
                && pending == Without(old(pending), line.id)
                && promises == old(promises)[old(owner[line.id]) := Promise(Some(line.id),
                    [Answer(line.error, line.result)])]
      ensures line.Reply? ==> forall k | 0 <= k < |promises| ::
                promises[k] == if old(promises)[k] == Promise(Some(line.id), [])
                               then Promise(Some(line.id), [Answer(line.error, line.result)])
                               else old(promises)[k]
      ensures !line.Empty? && !line.Reply? ==> pending == [] && closedReason != ""
      ensures !line.Empty? && !line.Reply? ==>
                forall k | 0 <= k < |promises| :: old(promises[k].settled) == [] ==> promises[k].settled[0].Rejected?
    {
      hide Table;
      match line {
        case Empty =>
        case Undecodable =>
          FailAllPending("codemode bridge: host sent a line that is not valid JSON");
        case Reply(id, error, result) =>
          OwnPromise(pending, seq_, sent, promises, owner, id);
          if id !in pending {
            return;
          }
          Settle(id, error, result);
        case Shutdown(reason) =>
          var why := if reason != "" then " (" + reason + ")" else "";
          FailAllPending("codemode bridge: the host shut the bridge down" + why +
                         " - tool calls cannot complete without a host");
        case UnknownNotify(notify) =>
          FailAllPending("codemode bridge: unknown host message " + notify);
      }
    }

    /** The host closed its end. */
    method EndOfInput()
      requires Valid()
      modifies `closedReason, `pending, `armed, `promises
      ensures Valid() && SettlesOnce() && |promises| == |old(promises)| && pending == []
      ensures old(pending) == [] ==> closedReason == old(closedReason) && promises == old(promises)
      ensures old(pending) != [] ==> closedReason != ""
      ensures old(closedReason) != "" ==> closedReason == old(closedReason)
      ensures forall k | 0 <= k < |promises| :: old(promises[k].settled) == [] ==> promises[k].settled[0].Rejected?
    {
      if |pending| > 0 {
        FailAllPending("codemode bridge: host closed stdin while calls were in flight");
      }
    }

    /** A promise that is rejected before anything is sent. */
    ghost method RejectLocally(error: string)
      requires Valid()
      modifies `promises
      ensures Valid() && promises == old(promises) + [Promise(None, [Rejected(error)])]
    {
      TableGrows(pending, seq_, sent, promises, owner, seq_, Rejected(error));
      promises := promises + [Promise(None, [Rejected(error)])];
    }

    /** A tool call of the script: k is its promise. `lineBytes` is the length of the encoded call,
        `written` whether fd 1 took it. */
    method CallTool(name: string, args: Args, lineBytes: nat, written: bool) returns (ghost k: nat)
      requires Valid()
      modifies `seq_, `pending, `armed, `sent, `promises, `owner
      ensures Valid() && SettlesOnce() && k == |old(promises)| && |promises| == k + 1
      ensures forall i | 0 <= i < k :: promises[i] == old(promises[i])
      ensures seq_ == if closedReason == "" && !args.Primitive? then old(seq_) + 1 else old(seq_)
      ensures Sends(args, lineBytes, written) ==>
                && promises[k] == Promise(Some(seq_), []) && pending == old(pending) + [seq_]
                && sent == old(sent) + [CallFrame(seq_, name, if args.Absent? then "{}" else args.json)]
      ensures !Sends(args, lineBytes, written) ==>
                |promises[k].settled| == 1 && promises[k].settled[0].Rejected? && promises[k].id == None &&
                pending == old(pending) && sent == old(sent)
    {
      hide Table;
      k := |promises|;
      if closedReason != "" {
        RejectLocally(closedReason + " (call to " + name + " was not sent)");
        return;
      }
      var payload := "{}";
      match args {
        case Absent =>
        case Object(json) => payload := json;
        case Cyclic =>
        case Primitive =>
          RejectLocally("tool " + name + ": arguments must be a single JSON object");
          return;
      }
      if args.Cyclic? {
        SpendId("tool " + name + ": arguments are not JSON-serializable");
        seq_ := seq_ + 1;
        return;
      }
      if lineBytes > MAX_LINE_BYTES {
        SpendId("tool " + name + ": arguments too large");
        seq_ := seq_ + 1;
        return;
      }
      Send(name, payload, written);
    }

    /** The call enters the table before its frame is written, and leaves it again if it is not. */
    method Send(name: string, payload: string, written: bool)
      requires Valid() && closedReason == ""
      modifies `seq_, `pending, `armed, `sent, `promises, `owner
      ensures Valid() && SettlesOnce() && seq_ == old(seq_) + 1
      ensures |promises| == |old(promises)| + 1 && promises[..|old(promises)|] == old(promises)
      ensures written ==> promises[|old(promises)|] == Promise(Some(seq_), []) && pending == old(pending) + [seq_] &&
                          sent == old(sent) + [CallFrame(seq_, name, payload)] &&
                            owner == old(owner)[seq_ := |old(promises)|]
      ensures !written ==> |promises[|old(promises)|].settled| == 1 && promises[|old(promises)|].settled[0].Rejected? &&
                           promises[|old(promises)|].id == None && pending == old(pending) && sent == old(sent) &&
                             owner == old(owner)
    {
      hide Table, Without;
      ghost var before := pending;
      seq_ := seq_ + 1;
      var id := seq_;
      pending := pending + [id];
      SyncKeepAlive();
      if !written {
        NewIdIsAbsent(before, id - 1, sent, promises, owner);
        WithoutLast(before, id);
        pending := Without(pending, id);
        SyncKeepAlive();
        ghost var o := Rejected("tool " + name + ": the sandbox could not write to fd1 (the host is gone)");
        TableGrows(before, id - 1, sent, promises, owner, id, o);
        promises := promises + [Promise(None, [o])];
        return;
      }
      TableSends(before, id - 1, sent, promises, owner, CallFrame(id, name, payload));
      sent := sent + [CallFrame(id, name, payload)];
      owner := owner[id := |promises|];
      promises := promises + [Promise(Some(id), [])];
    }

    /** The id of a call that cannot be encoded is spent. */
    ghost method SpendId(error: string)
      requires Valid()
      modifies `promises
      ensures Table(pending, seq_ + 1, sent, promises, owner) &&
              promises == old(promises) + [Promise(None, [Rejected(error)])]
    {
      TableGrows(pending, seq_, sent, promises, owner, seq_ + 1, Rejected(error));
      promises := promises + [Promise(None, [Rejected(error)])];
    }

    predicate Sends(args: Args, lineBytes: nat, written: bool)
      reads `closedReason
    {
      closedReason == "" && (args.Absent? || args.Object?) && lineBytes <= MAX_LINE_BYTES && written
    }
  }

  ghost function RejectedSome(promises: seq<Promise>, owner: map<nat, nat>, ids: seq<nat>,
                              reason: string): (after: seq<Promise>)
    ensures |after| == |promises|
  {
    if ids == [] then promises
    else
      var before := RejectedSome(promises, owner, ids[..|ids| - 1], reason);
      var id := ids[|ids| - 1];
      if id in owner && owner[id] < |before| then
        before[owner[id] := before[owner[id]].(settled := before[owner[id]].settled + [Rejected(reason)])]
      else before
  }

  lemma {:induction false} RejectedAll(promises: seq<Promise>, owner: map<nat, nat>, ids: seq<nat>, reason: string)
    requires Distinct(ids) && forall id | id in ids ::
             id in owner && owner[id] < |promises| && promises[owner[id]].id == Some(id)
    requires forall k | 0 <= k < |promises| :: promises[k].id.Some? && promises[k].id.value in ids ==>
             owner[promises[k].id.value] == k
    ensures forall k | 0 <= k < |promises| :: RejectedSome(promises, owner, ids, reason)[k] ==
              if promises[k].id.Some? && promises[k].id.value in ids
                 then promises[k].(settled := promises[k].settled + [Rejected(reason)])
              else promises[k]
  {
    if ids != [] {
      var n := |ids| - 1;
      assert ids == ids[..n] + [ids[n]];
      RejectedAll(promises, owner, ids[..n], reason);
      assert ids[n] !in ids[..n];
    }
  }

  function Answer(error: Option<string>, result: Option<Value>): Outcome {
    if error.Some? then Rejected(error.value) else Resolved(result)
  }

  lemma {:induction false} WithoutLast(ids: seq<nat>, id: nat)
    requires id !in ids
    ensures Without(ids + [id], id) == ids
  {
    if ids == [] {
      assert Without([id], id) == Without([id][1..], id);
    } else {
      assert (ids + [id])[1..] == ids[1..] + [id];
      WithoutLast(ids[1..], id);
    }
  }
}
