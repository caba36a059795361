/** The call_transcripts table and its operations (server/internal/database/transcriptions.go). Time is a parameter. */
module TranscriptionQueue {
  import opened Text
  import opened TranscriptionSpec

  datatype Job = NoJob | Job(callId: int, attempts: nat, claimedUntil: int)

  /** Every other row is as it was. */
  ghost predicate OthersStay(before: Rows, after: Rows, id: int) {
    forall x :: x != id ==> (x in before <==> x in after) && (x in before ==> after[x] == before[x])
  }

  /** The lease is released and the status, transcript and message are as given; the attempts stay. */
  ghost predicate Ended(before: Row, after: Row, status: Status, transcript: Transcript, message: string) {
    && after.status == status && after.transcript == transcript && after.error == message
    && after.attempts == before.attempts && after.claimedBy == "" && after.claimedUntil == 0
  }

  class Queue {
    var rows: Rows
    var calls: map<int, CallInfo>
    var selected: set<int>

    /** Rows reference stored calls. */
    ghost predicate Valid()
      reads this
    {
      forall id :: id in rows ==> id in calls
    }

    /** What the tables are as part of a run. */
    ghost function In(s: State): State
      reads this
    {
      s.(rows := rows, calls := calls, selected := selected)
    }

    /** Fails for a call that is not stored. */
    method UpsertCallTranscriptStatus(callId: int, status: Status, message: string) returns (ok: bool)
      requires Valid()
      modifies this`rows
      ensures Valid() && (ok <==> callId in calls)
      ensures rows == if ok then Upsert(old(rows), callId, status, message) else old(rows)
      ensures status.Skipped? || status.Pending? ==>
                forall s: State :: s == old(In(s)) ==>
                  rows == Next(s, UpsertStatus(callId, status.Skipped?, message)).rows
      ensures OthersStay(old(rows), rows, callId)
      ensures ok && callId in old(rows) ==>
                callId in rows && Ended(old(rows)[callId], rows[callId], status, old(rows)[callId].transcript, message)
      ensures ok && callId !in old(rows) ==>
                callId in rows && rows[callId] == Row(status, Transcript("", "", "", 0.0), message, 0, "", 0)
    {
      ok := callId in calls;
      if !ok {
        return;
      }
      if callId in rows {
        var row := rows[callId];
        row := row.(status := status, error := message);
        row := row.(claimedBy := "", claimedUntil := 0);
        rows := rows[callId := row];
      } else {
        rows := rows[callId := Row(status, NO_TRANSCRIPT, message, 0, "", 0)];
      }
    }

    /** UPDATE ... SET status = 'skipped' of some rows. */
    method SkipRows(ids: set<int>, message: string)
      requires Valid()
      modifies this`rows
      ensures Valid() && rows == SkipAll(old(rows), ids, message)
    {
      rows := map id | id in rows :: if id in ids then Released(rows[id], Skipped, message) else rows[id];
    }

    method CancelPendingTranscriptionJobs(reason: string)
      requires Valid()
      modifies this`rows
      ensures Valid() && forall s: State :: s == old(In(s)) ==> rows == Next(s, CancelPending(reason)).rows
      ensures forall id :: id in old(rows) <==> id in rows
      ensures forall id :: id in rows ==>
                var r := old(rows)[id];
                if r.status.Pending? || r.status.Processing? then Ended(r, rows[id], Skipped, r.transcript, reason)
                else rows[id] == r
    {
      var queued := set id | id in rows && (rows[id].status.Pending? || rows[id].status.Processing?);
      forall id: int ensures id in queued <==> id in QueuedIds(rows) {
      }
      assert queued == QueuedIds(rows);
      SkipRows(queued, reason);
    }

    method SkipShortPendingTranscriptionJobs(least: real)
      requires Valid()
      modifies this`rows
      ensures Valid() && forall s: State :: s == old(In(s)) ==> rows == Next(s, SkipShort(least)).rows
      ensures forall id :: id in old(rows) <==> id in rows
      ensures forall id :: id in rows ==>
                var r := old(rows)[id];
                if r.status.Pending? && 0.0 < calls[id].duration < least then
                  Ended(r, rows[id], Skipped, r.transcript, "audio duration below " + OneDecimal(least) + "s minimum")
                else rows[id] == r
    {
      if least <= 0.0 {
        assert rows == SkipAll(rows, {}, ShortMessage(least));
        return;
      }
      var short := set id | id in rows && id in calls && rows[id].status.Pending?
                            && calls[id].duration > 0.0 && calls[id].duration < least;
      forall id: int ensures id in short <==> id in ShortIds(rows, calls, least) {
      }
      assert short == ShortIds(rows, calls, least);
      SkipRows(short, ShortMessage(least));
    }

    method SkipUnselectedPendingTranscriptionJobs()
      requires Valid()
      modifies this`rows
      ensures Valid()
      ensures forall id :: id in old(rows) <==> id in rows
      ensures forall id :: id in rows ==>
                var r := old(rows)[id];
                if (r.status.Pending? || r.status.Processing?) && calls[id].talkgroup !in selected then
                  Ended(r, rows[id], Skipped, r.transcript, "talkgroup not enabled for transcription")
                else rows[id] == r
      ensures forall s: State :: s == old(In(s)) ==> rows == Next(s, SkipUnselected).rows
    {
      var unselected := set id | id in rows && id in calls && (rows[id].status.Pending? || rows[id].status.Processing?)
                                 && calls[id].talkgroup !in selected;
      forall id: int ensures id in unselected <==> id in UnselectedIds(rows, calls, selected) {
      }
      assert unselected == UnselectedIds(rows, calls, selected);
      SkipRows(unselected, "talkgroup not enabled for transcription");
    }

    method EnsureTranscriptionQueueRows()
      requires Valid()
      modifies this`rows
      ensures Valid() && rows == EnsureRows(old(rows), calls)
      ensures forall s: State :: s == old(In(s)) ==> rows == Next(s, Ensure).rows
      ensures forall id :: id in rows <==> id in calls
      ensures forall id :: id in rows ==>
                rows[id] == if id in old(rows) then old(rows)[id]
                            else Row(Pending, Transcript("", "", "", 0.0), "", 0, "", 0)
    {
      ghost var before := rows;
      var missing := map id | id in calls && id !in rows :: NewRow(Pending, "");
      rows := rows + missing;
      FilledRows(before, calls, missing);
    }

    /** Leases the largest claimable call, after missing rows have been added: the state is that of `ClaimStep`. */
    method ClaimTranscriptionJob(workerId: string, leaseSeconds: int, now: nat, ghost s: State) returns (job: Job)
      requires Valid() && s.now == now && In(s) == s
      modifies this`rows
      ensures Valid() && rows == ClaimStep(s, workerId, leaseSeconds).rows
      ensures rows == Next(s, Claim(workerId, leaseSeconds)).rows
      ensures job.NoJob? <==> ClaimStep(s, workerId, leaseSeconds).log == s.log
      ensures var mid := EnsureRows(old(rows), calls);
              job.NoJob? ==>
                && rows == mid
                && forall id :: id in mid ==>
                     !mid[id].status.Pending? && (mid[id].status.Processing? ==> mid[id].claimedUntil >= now)
      ensures var mid := EnsureRows(old(rows), calls);
              job.Job? ==>
                && job.callId in mid
                && (mid[job.callId].status.Pending?
                    || (mid[job.callId].status.Processing? && mid[job.callId].claimedUntil < now))
                && (forall id :: id in mid && id > job.callId ==>
                      !mid[id].status.Pending? && (mid[id].status.Processing? ==> mid[id].claimedUntil >= now))
                && rows == mid[job.callId := mid[job.callId].(status := Processing, error := "",
                     attempts := mid[job.callId].attempts + 1,
                     claimedBy := if workerId == "" then "local-transcriber" else workerId,
                     claimedUntil := now + if leaseSeconds <= 0 then 300 else leaseSeconds)]
      ensures job.Job? ==>
                && job.callId in rows && job.attempts == rows[job.callId].attempts
                && job.claimedUntil == rows[job.callId].claimedUntil
                && ClaimStep(s, workerId, leaseSeconds).log ==
                   s.log + [Claimed(job.callId, WorkerName(workerId), now, job.claimedUntil)]
    {
      hide EnsureRows, Largest;
      var lease := leaseSeconds;
      if lease <= 0 {
        lease := 300;
      }
      var claimedUntil := now + lease;
      EnsureTranscriptionQueueRows();
      var candidates := set id | id in rows
                                 && (rows[id].status.Pending?
                                     || (rows[id].status.Processing? && rows[id].claimedUntil < now));
      forall id: int ensures id in candidates <==> id in ClaimableIds(rows, now) {
      }
      assert candidates == ClaimableIds(rows, now);
      ghost var mid := rows;
      forall id | id in mid && id !in candidates
        ensures !mid[id].status.Pending? && (mid[id].status.Processing? ==> mid[id].claimedUntil >= now)
      {
      }
      if candidates == {} {
        return NoJob;
      }
      var id := Largest(candidates);
      var row := rows[id];
      row := row.(status := Processing, attempts := row.attempts + 1);
      row := row.(claimedBy := WorkerName(workerId), claimedUntil := claimedUntil, error := "");
      rows := rows[id := row];
      job := Job(id, row.attempts, row.claimedUntil);
      assert |ClaimStep(s, workerId, leaseSeconds).log| == |s.log| + 1;
    }

    /** The three ways to end a job do not look at who holds the lease. */
    method EndJob(callId: int, status: Status, transcript: Transcript, message: string, keepTranscript: bool)
        returns (ok: bool)
      requires Valid()
      modifies this`rows
      ensures Valid() && (ok <==> callId in old(rows))
      ensures rows == if ok
                      then var r := Released(old(rows)[callId], status, message);
                           old(rows)[callId := if keepTranscript then r else r.(transcript := transcript)]
                      else old(rows)
    {
      ok := callId in rows;
      if ok {
        var row := rows[callId];
        row := row.(status := status, error := message, claimedBy := "", claimedUntil := 0);
        if !keepTranscript {
          row := row.(transcript := transcript);
        }
        rows := rows[callId := row];
      }
    }

    method CompleteTranscriptionJob(callId: int, transcript: Transcript) returns (ok: bool)
      requires Valid()
      modifies this`rows
      ensures Valid() && (ok <==> callId in old(rows))
      ensures forall s: State :: s.rows == old(rows) ==> rows == Next(s, Complete(callId, transcript)).rows
      ensures OthersStay(old(rows), rows, callId)
      ensures ok ==> callId in rows && Ended(old(rows)[callId], rows[callId], Finished, transcript, "")
    {
      ok := EndJob(callId, Finished, transcript, "", false);
    }

    method FailTranscriptionJob(callId: int, message: string) returns (ok: bool)
      requires Valid()
      modifies this`rows
      ensures Valid() && (ok <==> callId in old(rows))
      ensures forall s: State :: s.rows == old(rows) ==> rows == Next(s, Fail(callId, message)).rows
      ensures OthersStay(old(rows), rows, callId)
      ensures ok ==> callId in rows
                     && Ended(old(rows)[callId], rows[callId], Failed, old(rows)[callId].transcript, message)
    {
      ok := EndJob(callId, Failed, NO_TRANSCRIPT, message, true);
    }

    method SkipTranscriptionJob(callId: int, message: string) returns (ok: bool)
      requires Valid()
      modifies this`rows
      ensures Valid() && (ok <==> callId in old(rows))
      ensures forall s: State :: s.rows == old(rows) ==> rows == Next(s, Skip(callId, message)).rows
      ensures OthersStay(old(rows), rows, callId)
      ensures ok ==> callId in rows
                     && Ended(old(rows)[callId], rows[callId], Skipped, old(rows)[callId].transcript, message)
    {
      ok := EndJob(callId, Skipped, NO_TRANSCRIPT, message, true);
    }
  }

  lemma FilledRows(rows: Rows, calls: map<int, CallInfo>, missing: Rows)
    requires forall id :: id in rows ==> id in calls
    requires missing == map id | id in calls && id !in rows :: NewRow(Pending, "")
    ensures rows + missing == EnsureRows(rows, calls)
    ensures forall id :: id in rows + missing ==> id in calls
  {
    var filled := EnsureRows(rows, calls);
    forall id: int ensures id in rows + missing <==> id in filled
      ensures id in filled ==> (rows + missing)[id] == filled[id]
    {
      assert id in filled <==> id in rows.Keys + calls.Keys;
    }
    assert rows + missing == filled;
    forall id: int | id in rows + missing ensures id in calls {
      assert id in filled;
      assert id in rows.Keys + calls.Keys;
    }
  }
}
