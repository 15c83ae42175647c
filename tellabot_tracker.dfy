/**
 * The Tellabot client's request tracker: the login flag and the list of
 * reservation records, replaced by each handler. Every relay call is
 * modelled by the reply it returned, passed in as a parameter.
 */
module TellabotTracker {
  import opened Wrappers
  import opened TellabotForm
  import opened TellabotRecords

  datatype FlashKind = Success | Failure | Info

  /** The transient notification a handler shows. */
  datatype Flash = Flash(kind: FlashKind, text: string)

  /** The payload of a `reject` reply is never read. */
  datatype Ignored = Ignored

  class Tracker {
    var loggedIn: bool
    var requests: seq<NumberRequest>

    /** Every waiting record has at least one second left. */
    ghost predicate Valid()
      reads this
    {
      AllWaitingHaveTime(requests)
    }

    constructor ()
      ensures Valid() && !loggedIn && requests == []
    {
      loggedIn := false;
      requests := [];
    }

    /** `hasWaitingRequests`: whether the countdown and the SMS poller run. */
    function HasWaiting(): (b: bool)
      reads this
      ensures b <==> exists i :: 0 <= i < |requests| && requests[i].mode == Waiting
    {
      exists i :: 0 <= i < |requests| && requests[i].mode == Waiting
    }

    /** The records the ten-second poller sends `read_sms` for. */
    function PollTargets(): (ws: seq<NumberRequest>)
      reads this
      ensures loggedIn ==> forall r :: r in ws <==> r in requests && r.mode == Waiting
      ensures !loggedIn ==> ws == []
    {
      if loggedIn then FilterWaiting(requests) else []
    }

    /**
     * The gate `hasWaitingRequests` puts on the countdown and the poller:
     * without a waiting record a tick would change nothing and no record is
     * polled, and with one a tick changes the list.
     */
    lemma GateIdle()
      ensures !HasWaiting() <==> TickAll(requests) == requests
      ensures !HasWaiting() ==> PollTargets() == []
    {
      if HasWaiting() {
        var i :| 0 <= i < |requests| && requests[i].mode == Waiting;
        assert TickAll(requests)[i] != requests[i];
      } else {
        forall i | 0 <= i < |requests|
          ensures TickAll(requests)[i] == requests[i]
        {
          assert requests[i].mode != Waiting;
        }
        NoneWaitingFiltered(requests);
      }
    }

    /** The outcome of the `balance` call made at login: logged in exactly when it succeeded. */
    method Login<T>(reply: Reply<T>)
      modifies this
      ensures loggedIn == reply.OkStatus? && requests == old(requests)
    {
      loggedIn := reply.OkStatus?;
    }

    /** Logging out clears the session, including every record. */
    method Logout()
      modifies this
      ensures Valid() && !loggedIn && requests == []
    {
      loggedIn := false;
      requests := [];
    }

    /** The records read back from storage at start-up, recomputed at `now`. */
    method Restore(stored: seq<StoredRequest>, now: int)
      modifies this
      ensures Valid() && requests == RestoreAll(stored, now) && loggedIn == old(loggedIn)
    {
      requests := RestoreAll(stored, now);
    }

    /** What is written to storage after every change. */
    function Stored(): (ss: seq<StoredRequest>)
      reads this
      ensures |ss| == |requests|
    {
      Snapshot(requests)
    }

    /** One firing of the one-second countdown. */
    method Tick()
      requires Valid()
      modifies this
      ensures Valid() && requests == TickAll(old(requests)) && loggedIn == old(loggedIn)
    {
      requests := TickAll(requests);
    }

    /**
     * The completion of `pollForSms` for the record with id `id`: an error,
     * a failed call or a reply without messages changes nothing; otherwise
     * every record with that id holds the first message's text.
     */
    method ReceivePoll(id: NumId, reply: Reply<SmsItem>) returns (flash: Option<Flash>)
      requires Valid()
      modifies this
      ensures Valid() && loggedIn == old(loggedIn)
      ensures FirstItem(reply).None? ==> requests == old(requests) && flash == None
      ensures FirstItem(reply).Some? ==>
        requests == ReceiveSms(old(requests), id, MessageText(FirstItem(reply).value))
        && flash == Some(Flash(Success, "SMS received for your Tellabot number."))
    {
      match FirstItem(reply)
      case None =>
        flash := None;
      case Some(msg) =>
        requests := ReceiveSms(requests, id, MessageText(msg));
        flash := Some(Flash(Success, "SMS received for your Tellabot number."));
    }

    /**
     * `handleCancel`: nothing happens when logged out; a failed call or an
     * error leaves the records as they were; success expires every record
     * with the target's id.
     */
    method Cancel(target: NumberRequest, reply: Reply<Ignored>) returns (flash: Option<Flash>)
      requires Valid()
      modifies this
      ensures Valid() && loggedIn == old(loggedIn)
      ensures !loggedIn ==> requests == old(requests) && flash == None
      ensures loggedIn && reply.CallFailed? ==>
        requests == old(requests) && flash == Some(Flash(Failure, "Failed to cancel number."))
      ensures loggedIn && reply.ErrorStatus? ==>
        requests == old(requests)
        && flash == Some(Flash(Failure, reply.message.GetOr("Failed to cancel number.")))
      ensures loggedIn && reply.OkStatus? ==>
        requests == CancelById(old(requests), target.id)
        && flash == Some(Flash(Success, "Number cancelled successfully."))
    {
      if !loggedIn {
        return None;
      }
      match reply
      case CallFailed =>
        flash := Some(Flash(Failure, "Failed to cancel number."));
      case ErrorStatus(message) =>
        flash := Some(Flash(Failure, message.GetOr("Failed to cancel number.")));
      case OkStatus(_) =>
        requests := CancelById(requests, target.id);
        flash := Some(Flash(Success, "Number cancelled successfully."));
    }

    /**
     * `handleGetNumber`: a form that fails its checks is reported without a
     * relay call; otherwise the reply to the parameters the checks built
     * decides, and a non-empty success puts one new record in front of the
     * unchanged list.
     */
    method RequestNumber(form: RequestForm, reply: Reply<ProviderItem>, now: int) returns (flash: Flash)
      requires Valid() && Sanitized(form) && form.loggedIn == loggedIn
      modifies this
      ensures Valid() && loggedIn == old(loggedIn)
      ensures CheckRequestForm(form).Err? ==>
        requests == old(requests) && flash == Flash(Failure, CheckRequestForm(form).error)
      ensures CheckRequestForm(form).Ok? && reply.CallFailed? ==>
        requests == old(requests) && flash == Flash(Failure, "Failed to request number from Tellabot.")
      ensures CheckRequestForm(form).Ok? && reply.ErrorStatus? ==>
        requests == old(requests) && flash == Flash(Failure, reply.message.GetOr("Request failed."))
      ensures CheckRequestForm(form).Ok? && reply.OkStatus? && FirstItem(reply).None? ==>
        requests == old(requests) && flash == Flash(Info, "Request succeeded but returned no numbers.")
      ensures CheckRequestForm(form).Ok? && FirstItem(reply).Some? ==>
        requests == [NewRequest(FirstItem(reply).value, form.serviceName, now)] + old(requests)
        && flash == Flash(Success, "Number reserved successfully.")
    {
      var check := CheckRequestForm(form);
      if check.Err? {
        return Flash(Failure, check.error);
      }
      match reply
      case CallFailed =>
        flash := Flash(Failure, "Failed to request number from Tellabot.");
      case ErrorStatus(message) =>
        flash := Flash(Failure, message.GetOr("Request failed."));
      case OkStatus(_) =>
        match FirstItem(reply)
        case None =>
          flash := Flash(Info, "Request succeeded but returned no numbers.");
        case Some(item) =>
          var created := NewRequest(item, form.serviceName, now);
          NewRecordsCountDown(item, form.serviceName, created, now);
          requests := [created] + requests;
          flash := Flash(Success, "Number reserved successfully.");
    }

    /**
     * `handleReactivate`: nothing happens when logged out; a failure, an
     * error or an empty reply leaves the records as they were; a non-empty
     * success puts one new record in front of the unchanged list, which
     * still holds the source record as it was.
     */
    method Reactivate(source: NumberRequest, reply: Reply<ProviderItem>, now: int) returns (flash: Option<Flash>)
      requires Valid()
      modifies this
      ensures Valid() && loggedIn == old(loggedIn)
      ensures !loggedIn ==> requests == old(requests) && flash == None
      ensures loggedIn && reply.CallFailed? ==>
        requests == old(requests) && flash == Some(Flash(Failure, "Failed to reactivate number."))
      ensures loggedIn && reply.ErrorStatus? ==>
        requests == old(requests)
        && flash == Some(Flash(Failure, reply.message.GetOr("Failed to reactivate number.")))
      ensures loggedIn && reply.OkStatus? && FirstItem(reply).None? ==>
        requests == old(requests) && flash == Some(Flash(Info, "Reactivation returned no data."))
      ensures loggedIn && FirstItem(reply).Some? ==>
        requests == [Reactivated(FirstItem(reply).value, source, now)] + old(requests)
        && flash == Some(Flash(Success, "Number reactivated successfully."))
    {
      if !loggedIn {
        return None;
      }
      match reply
      case CallFailed =>
        flash := Some(Flash(Failure, "Failed to reactivate number."));
      case ErrorStatus(message) =>
        flash := Some(Flash(Failure, message.GetOr("Failed to reactivate number.")));
      case OkStatus(_) =>
        match FirstItem(reply)
        case None =>
          flash := Some(Flash(Info, "Reactivation returned no data."));
        case Some(item) =>
          var created := Reactivated(item, source, now);
          NewRecordsCountDown(item, source.service, source, now);
          requests := [created] + requests;
          flash := Some(Flash(Success, "Number reactivated successfully."));
    }
  }

  /** A list without a waiting record filters to nothing. */
  lemma {:induction false} NoneWaitingFiltered(rs: seq<NumberRequest>)
    requires forall i :: 0 <= i < |rs| ==> rs[i].mode != Waiting
    ensures FilterWaiting(rs) == []
  {
    if rs != [] {
      NoneWaitingFiltered(rs[1..]);
    }
  }

  /** `prev.filter((r) => r.mode === "waiting")`. */
  function FilterWaiting(rs: seq<NumberRequest>): (ws: seq<NumberRequest>)
    ensures forall r :: r in ws <==> r in rs && r.mode == Waiting
  {
    if rs == [] then []
    else (if rs[0].mode == Waiting then [rs[0]] else []) + FilterWaiting(rs[1..])
  }
}
