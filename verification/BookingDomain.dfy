/** The domain booking and its status machine. */
module BookingDomain {
  import opened Basics

  datatype BookingStatus =
    | Draft | Held | Confirmed | Completed | Cancelled | NoShow | ReschedulePending | Expired

  function Transitions(from: BookingStatus): set<BookingStatus> {
    match from
    case Draft => {Held}
    case Held => {Confirmed, Expired}
    case Confirmed => {Completed, Cancelled, NoShow, ReschedulePending}
    case ReschedulePending => {Confirmed, Cancelled}
    case _ => {}
  }

  datatype Change = Change(from: BookingStatus, to: BookingStatus)

  /** The status a new booking reaches by these changes, if each is a legal next step. */
  function Replay(changes: seq<Change>): Option<BookingStatus> {
    if changes == [] then Some(Draft)
    else
      var last := changes[|changes| - 1];
      match Replay(changes[..|changes| - 1])
      case None => None
      case Some(status) =>
        if status == last.from && last.to in Transitions(status) then Some(last.to) else None
  }

  class Booking {
    var status: BookingStatus
    var history: seq<Change>

    ghost predicate Valid()
      reads this
    {
      Replay(history) == Some(status)
    }

    constructor ()
      ensures Valid() && status == Draft && history == []
    {
      status, history := Draft, [];
    }

    method TransitionTo(target: BookingStatus) returns (accepted: bool)
      requires Valid()
      modifies this
      ensures Valid()
      ensures accepted <==> target in Transitions(old(status))
      ensures status == (if accepted then target else old(status))
      ensures history == old(history) + if accepted then [Change(old(status), target)] else []
    {
      if target !in Transitions(status) {
        return false;
      }
      var previous := status;
      status := target;
      history := history + [Change(previous, target)];
      assert history[..|history| - 1] == old(history);
      return true;
    }
  }

  lemma ReplayStep(changes: seq<Change>, change: Change)
    requires Replay(changes) == Some(change.from) && change.to in Transitions(change.from)
    ensures Replay(changes + [change]) == Some(change.to)
  {
    assert (changes + [change])[..|changes|] == changes;
  }

  /** The table read the other way: from where each status is entered. */
  lemma EnteredFrom(from: BookingStatus, to: BookingStatus)
    ensures to in Transitions(from) <==>
              match to
              case Held => from == Draft
              case Confirmed => from == Held || from == ReschedulePending
              case Cancelled => from == Confirmed || from == ReschedulePending
              case Completed => from == Confirmed
              case NoShow => from == Confirmed
              case ReschedulePending => from == Confirmed
              case Expired => from == Held
              case Draft => false
  {
    match from
    case Draft => case Held => case Confirmed => case Completed => case Cancelled => case NoShow =>
    case ReschedulePending => case Expired =>
  }

  /** A booking that has been cancelled, completed, missed or has expired never changes status again. */
  lemma {:induction false} EndsForGood(changes: seq<Change>, later: seq<Change>)
    requires Replay(changes).Some? && Replay(changes + later).Some?
    requires Replay(changes).value in {Completed, Cancelled, NoShow, Expired}
    ensures later == []
  {
    if later != [] {
      var all, last := changes + later, later[|later| - 1];
      assert all[..|all| - 1] == changes + later[..|later| - 1] && all[|all| - 1] == last;
      EndsForGood(changes, later[..|later| - 1]);
      assert later[..|later| - 1] == [] && changes + [] == changes;
      EnteredFrom(last.from, last.to);
    }
  }
}
