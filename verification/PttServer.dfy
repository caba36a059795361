/** Push-to-talk delivery of one request with nobody in between, and the broadcast loop
    (server/internal/api/ptt.go, server/internal/database/ptt.go). Every statement may fail; `failed` says whether one
    did. `PttIdempotency` has the interleavings. */
module PttServer {
  import opened PttIdempotency
  import opened Text

  datatype User = User(id: string, email: string)

  /** A radio set without a PTT talkgroup cannot be transmitted into. */
  datatype Talkgroup = NoTalkgroup | OnTalkgroup(number: int)

  datatype RadioSet = RadioSet(userId: string, name: string, pttTalkgroup: Talkgroup)

  datatype PttCall = PttCall(ownerId: string, talkgroup: int, origin: string, senderId: string,
                             audio: seq<bv8>, duration: real)

  datatype Delivery = Delivered(radioSetId: string, callId: int, talkgroup: int)
    | NotDelivered(radioSetId: string, error: string)

  datatype UploadAnswer = Accepted(callId: int, talkgroup: int) | Rejected(error: string)

  class Server {
    /** Whether nothing the methods call ever fails. */
    const reliable: bool
    var radioSets: map<string, RadioSet>
    var calls: map<int, PttCall>
    var lastCallId: int
    var uploads: map<string, int>
    /** Calls pushed to the stream hub and broadcast over the WebSocket hub, in order. */
    var broadcasts: seq<int>

    ghost predicate Valid()
      reads this
    {
      && lastCallId >= 0
      && (forall id :: id in calls ==> 0 < id <= lastCallId)
      && (forall k :: k in uploads ==> uploads[k] in calls)
      && (forall i :: 0 <= i < |broadcasts| ==> broadcasts[i] <= lastCallId)
      && (forall i, j :: 0 <= i < j < |broadcasts| ==> broadcasts[i] != broadcasts[j])
    }

    /** Whether the next statement or tool fails. */
    method Fails() returns (fails: bool)
      ensures reliable ==> !fails
    {
      fails := false;
      if * {
        fails := !reliable;
      }
    }

    predicate Deliverable(radioSetId: string)
      reads this
    {
      radioSetId in radioSets && radioSets[radioSetId].pttTalkgroup.OnTalkgroup?
    }

    method GetPttUploadCallId(clientId: string) returns (ok: bool, found: bool, callId: int)
      ensures ok ==> (found <==> clientId in uploads) && (found ==> callId == uploads[clientId])
      ensures !ok ==> !found && !reliable
    {
      var fails := Fails();
      if fails {
        return false, false, 0;
      }
      ok, found := true, clientId in uploads;
      callId := if found then uploads[clientId] else 0;
    }

    method InsertCall(call: PttCall) returns (ok: bool, id: int)
      requires Valid()
      modifies this`calls, this`lastCallId
      ensures Valid()
      ensures ok ==> id == lastCallId == old(lastCallId) + 1 && calls == old(calls)[id := call]
      ensures !ok ==> calls == old(calls) && lastCallId == old(lastCallId) && !reliable
    {
      var fails := Fails();
      if fails {
        return false, 0;
      }
      lastCallId := lastCallId + 1;
      id := lastCallId;
      calls := calls[id := call];
      ok := true;
    }

    /** Always fails when the client id is taken. Any other failure may come before or after the row is written. */
    method RecordPttUpload(clientId: string, callId: int) returns (ok: bool, ghost failed: bool)
      requires Valid() && callId in calls
      modifies this`uploads
      ensures Valid() && (clientId in old(uploads) ==> !ok && uploads == old(uploads))
      ensures (reliable ==> !failed) && (clientId !in old(uploads) ==> (failed <==> !ok))
      ensures clientId !in old(uploads) && ok ==> uploads == old(uploads)[clientId := callId]
      ensures uploads == old(uploads) || uploads == old(uploads)[clientId := callId]
    {
      failed := false;
      var fails := Fails();
      if fails {
        return false, true;
      }
      ok := clientId !in uploads;
      if ok {
        uploads := uploads[clientId := callId];
        fails := Fails();
        if fails {
          return false, true;
        }
      }
    }

    /** The single upload. A known key answers with its call and changes nothing; a new key stores one call, records it
        and broadcasts it; every other request is rejected and changes nothing. With a failure a call may be broadcast
        without its row. `normalized` is the audio after conversion, `convertible` whether that succeeds. */
    method HandlePttUpload(user: User, radioSetId: string, clientIdText: string, audio: seq<bv8>, normalized: seq<bv8>,
                           convertible: bool, duration: real)
        returns (answer: UploadAnswer, ghost failed: bool)
      requires Valid()
      modifies this`calls, this`lastCallId, this`uploads, this`broadcasts
      ensures Valid()
      ensures var clientId := TrimSpace(clientIdText);
              !failed ==>
                answer ==
                if radioSetId !in radioSets then Rejected("radio set not found")
                else if radioSets[radioSetId].pttTalkgroup.NoTalkgroup? then Rejected("radio set has no ptt talkgroup")
                else if clientId == "" then Rejected("missing clientId")
                else if clientId in old(uploads) then
                  Accepted(old(uploads)[clientId], radioSets[radioSetId].pttTalkgroup.number)
                else if |audio| <= 44 then Rejected("audio too small")
                else if !convertible then Rejected("unsupported audio format")
                else Accepted(old(lastCallId) + 1, radioSets[radioSetId].pttTalkgroup.number)
      ensures answer.Rejected? && failed ==> answer.error in {"lookup radio set", "idempotency lookup", "store call"}
      ensures answer.Rejected? ==> uploads == old(uploads) && calls == old(calls) && broadcasts == old(broadcasts)
      ensures answer.Accepted? ==>
                var clientId := TrimSpace(clientIdText);
                && clientId != "" && Deliverable(radioSetId)
                && answer.talkgroup == radioSets[radioSetId].pttTalkgroup.number
                && if clientId in old(uploads)
                   then answer.callId == old(uploads)[clientId]
                        && uploads == old(uploads) && calls == old(calls) && broadcasts == old(broadcasts)
                   else
                     && answer.callId == lastCallId == old(lastCallId) + 1
                     && (uploads == old(uploads)[clientId := lastCallId] || (failed && uploads == old(uploads)))
                     && broadcasts == old(broadcasts) + [lastCallId]
                     && calls == old(calls)[lastCallId := PttCall(radioSets[radioSetId].userId,
                          radioSets[radioSetId].pttTalkgroup.number, "ptt", user.id, normalized, duration)]
      ensures (reliable ==> !failed) && (!failed && answer.Accepted? ==> TrimSpace(clientIdText) in uploads)
    {
      hide TrimSpace;
      failed := false;
      var fails := Fails();
      if fails {
        return Rejected("lookup radio set"), true;
      }
      if radioSetId !in radioSets {
        return Rejected("radio set not found"), failed;
      }
      var rs := radioSets[radioSetId];
      if rs.pttTalkgroup.NoTalkgroup? {
        return Rejected("radio set has no ptt talkgroup"), failed;
      }
      var clientId := TrimSpace(clientIdText);
      if clientId == "" {
        return Rejected("missing clientId"), failed;
      }
      var ok, found, existingCallId := GetPttUploadCallId(clientId);
      if !ok {
        return Rejected("idempotency lookup"), true;
      }
      if found {
        return Accepted(existingCallId, rs.pttTalkgroup.number), failed;
      }
      if |audio| <= 44 {
        return Rejected("audio too small"), failed;
      }
      if !convertible {
        return Rejected("unsupported audio format"), failed;
      }
      var id;
      ok, id := InsertCall(PttCall(rs.userId, rs.pttTalkgroup.number, "ptt", user.id, normalized, duration));
      if !ok {
        return Rejected("store call"), true;
      }
      ok, failed := RecordPttUpload(clientId, id);
      if !ok {
        var existing := 0;
        ok, found, existingCallId := GetPttUploadCallId(clientId);
        if ok && found {
          existing := existingCallId;
        }
        // With nobody in between a row found here can only be the one just written: the handler goes on.
        if existing != 0 && existing != id {
          assert false;
        }
      }
      broadcasts := broadcasts + [id];
      answer := Accepted(id, rs.pttTalkgroup.number);
    }

    /** Delivery to one set. A known key answers with its call and changes nothing; a new key stores one call, records
        it and broadcasts it. With a failure, a set that is not delivered to is reported and nothing changes, and a call
        may be broadcast without its row. */
    method DeliverPttToSet(user: User, radioSetId: string, baseClientId: string, audio: seq<bv8>, duration: real)
        returns (result: Delivery, ghost failed: bool)
      requires Valid()
      modifies this`calls, this`lastCallId, this`uploads, this`broadcasts
      ensures Valid() && result.radioSetId == radioSetId && (reliable ==> !failed)
      ensures !failed && !Deliverable(radioSetId) ==>
                result == NotDelivered(radioSetId, if radioSetId in radioSets then "no ptt talkgroup" else "not found")
      ensures !failed && Deliverable(radioSetId) ==>
                result.Delivered? && (baseClientId + ":" + radioSetId) in uploads
      ensures result.NotDelivered? && failed ==>
                result.error in {"lookup radio set", "idempotency lookup", "store call"}
      ensures result.NotDelivered? ==> uploads == old(uploads) && calls == old(calls) && broadcasts == old(broadcasts)
      ensures result.Delivered? ==>
                var key := baseClientId + ":" + radioSetId;
                && Deliverable(radioSetId)
                && result == Delivered(radioSetId, result.callId, radioSets[radioSetId].pttTalkgroup.number)
                && if key in old(uploads)
                   then result.callId == old(uploads)[key]
                        && uploads == old(uploads) && calls == old(calls) && broadcasts == old(broadcasts)
                   else
                     && result.callId == lastCallId > old(lastCallId)
                     && (uploads == old(uploads)[key := lastCallId] || (failed && uploads == old(uploads)))
                     && broadcasts == old(broadcasts) + [lastCallId]
                     && calls == old(calls)[lastCallId := PttCall(radioSets[radioSetId].userId,
                          radioSets[radioSetId].pttTalkgroup.number, "ptt-dispatch", user.id, audio, duration)]
      ensures lastCallId >= old(lastCallId)
      ensures forall id :: id in old(calls) ==> id in calls && calls[id] == old(calls)[id]
    {
      failed := false;
      var clientId := baseClientId + ":" + radioSetId;
      var fails := Fails();
      if fails {
        return NotDelivered(radioSetId, "lookup radio set"), true;
      }
      if radioSetId !in radioSets {
        return NotDelivered(radioSetId, "not found"), failed;
      }
      var rs := radioSets[radioSetId];
      if rs.pttTalkgroup.NoTalkgroup? {
        return NotDelivered(radioSetId, "no ptt talkgroup"), failed;
      }
      var ok, found, existingCallId := GetPttUploadCallId(clientId);
      if !ok {
        return NotDelivered(radioSetId, "idempotency lookup"), true;
      }
      if found {
        return Delivered(radioSetId, existingCallId, rs.pttTalkgroup.number), failed;
      }
      var id;
      ok, id := InsertCall(PttCall(rs.userId, rs.pttTalkgroup.number, "ptt-dispatch", user.id, audio, duration));
      if !ok {
        return NotDelivered(radioSetId, "store call"), true;
      }
      ok, failed := RecordPttUpload(clientId, id);
      if !ok {
        ok, found, existingCallId := GetPttUploadCallId(clientId);
        // With nobody in between a row found here can only be the one just written: the handler goes on.
        if found && existingCallId != id {
          assert false;
        }
      }
      broadcasts := broadcasts + [id];
      result := Delivered(radioSetId, id, rs.pttTalkgroup.number);
    }

    /** One result per requested set, in order. Without a failure every set that can be delivered to answers with the
        call recorded for its key, so a repeated set answers with the same call, and each new row was broadcast once.
        Whatever fails, old rows and calls stay, every answer is a stored call, and there are at most as many broadcasts
        as sets. */
    method HandlePttBroadcast(user: User, clientId: string, radioSetIds: seq<string>, audio: seq<bv8>, duration: real)
        returns (results: seq<Delivery>, ghost failed: bool)
      requires Valid()
      modifies this`calls, this`lastCallId, this`uploads, this`broadcasts
      ensures Valid() && |results| == |radioSetIds| && (reliable ==> !failed)
      ensures !failed ==> forall i :: 0 <= i < |results| ==> Answers(results[i], radioSetIds[i], clientId)
      ensures !failed ==> NewRows(old(uploads), uploads, old(broadcasts), broadcasts, clientId, radioSetIds)
      ensures forall i :: 0 <= i < |results| ==>
                results[i].radioSetId == radioSetIds[i] && (results[i].Delivered? ==> results[i].callId in calls)
      ensures forall k :: k in old(uploads) ==> k in uploads && uploads[k] == old(uploads)[k]
      ensures forall id :: id in old(calls) ==> id in calls && calls[id] == old(calls)[id]
      ensures old(broadcasts) <= broadcasts && |broadcasts| - |old(broadcasts)| <= |radioSetIds|
    {
      hide DispatchKey, NewRows;
      results, failed := [], false;
      var n := 0;
      NewRowsNone(uploads, broadcasts, clientId, radioSetIds);
      while n < |radioSetIds|
        invariant Valid() && 0 <= n <= |radioSetIds| && |results| == n && (reliable ==> !failed)
        invariant !failed ==> forall i :: 0 <= i < n ==> Answers(results[i], radioSetIds[i], clientId)
        invariant !failed ==> NewRows(old(uploads), uploads, old(broadcasts), broadcasts, clientId, radioSetIds)
        invariant forall i :: 0 <= i < n ==>
                    results[i].radioSetId == radioSetIds[i] && (results[i].Delivered? ==> results[i].callId in calls)
        invariant forall k :: k in old(uploads) ==> k in uploads && uploads[k] == old(uploads)[k]
        invariant forall id :: id in old(calls) ==> id in calls && calls[id] == old(calls)[id]
        invariant old(broadcasts) <= broadcasts && |broadcasts| - |old(broadcasts)| <= n
      {
        ghost var rows, heard := uploads, broadcasts;
        var result;
        ghost var oneFailed;
        result, oneFailed := DeliverPttToSet(user, radioSetIds[n], clientId, audio, duration);
        KeyIs(clientId, radioSetIds[n]);
        failed := failed || oneFailed;
        if !failed {
          NewRowsStep(old(uploads), rows, uploads, old(broadcasts), heard, broadcasts, clientId, radioSetIds, n);
        }
        results := results + [result];
        n := n + 1;
      }
    }

    /** A result is what the tables say about its set and key. */
    ghost predicate Answers(result: Delivery, radioSetId: string, clientId: string)
      reads this
    {
      if !Deliverable(radioSetId) then
        result == NotDelivered(radioSetId, if radioSetId in radioSets then "no ptt talkgroup" else "not found")
      else
        && DispatchKey(clientId, radioSetId) in uploads
        && result == Delivered(radioSetId, uploads[DispatchKey(clientId, radioSetId)],
                               radioSets[radioSetId].pttTalkgroup.number)
    }
  }

  lemma KeyIs(clientId: string, radioSetId: string)
    ensures DispatchKey(clientId, radioSetId) == clientId + ":" + radioSetId
  {
  }

  /** Rows only added, for keys of this broadcast, each with its call broadcast, and nothing else broadcast. */
  ghost predicate NewRows(before: map<string, int>, after: map<string, int>, heardBefore: seq<int>, heard: seq<int>,
                          clientId: string, radioSetIds: seq<string>) {
    && heardBefore <= heard && |heard| - |heardBefore| == |after| - |before|
    && (forall k :: k in before ==> k in after && after[k] == before[k])
    && (forall k :: k in after && k !in before ==>
          after[k] in heard[|heardBefore|..]
          && exists i :: 0 <= i < |radioSetIds| && k == DispatchKey(clientId, radioSetIds[i]))
  }

  lemma NewRowsNone(rows: map<string, int>, heard: seq<int>, clientId: string, radioSetIds: seq<string>)
    ensures NewRows(rows, rows, heard, heard, clientId, radioSetIds)
  {
  }

  lemma NewRowsStep(before: map<string, int>, rows: map<string, int>, after: map<string, int>, heardBefore: seq<int>,
                    heard: seq<int>, heardAfter: seq<int>, clientId: string, radioSetIds: seq<string>, n: nat)
    requires NewRows(before, rows, heardBefore, heard, clientId, radioSetIds) && n < |radioSetIds|
    requires var key := DispatchKey(clientId, radioSetIds[n]);
             (after == rows && heardAfter == heard)
             || (key !in rows && key in after && after == rows[key := after[key]] && heardAfter == heard + [after[key]])
    ensures NewRows(before, after, heardBefore, heardAfter, clientId, radioSetIds)
  {
    hide DispatchKey;
    var key := DispatchKey(clientId, radioSetIds[n]);
    if after != rows || heardAfter != heard {
      assert heardAfter[|heardBefore|..] == heard[|heardBefore|..] + [after[key]];
    }
  }
}
