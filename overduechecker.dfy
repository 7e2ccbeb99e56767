/** OverdueRentalChecker: the daily Telegram report of overdue rentals. */
module OverdueChecker {
  import opened Wrappers
  import opened Strings
  import opened DateTimes
  import opened Entities
  import opened Queries
  import opened Repositories

  const NothingOverdue: string := "No rentals overdue today!"

  /** Every rental's user is stored. */
  ghost predicate UsersLinked(users: map<int, User>, rs: seq<Rental>) {
    forall r :: r in rs ==> r.userId in users
  }

  /** The report for one overdue rental. `carText` is how the rental's car
      prints (the entity has no `toString` of its own, so this is an object
      identity); `formatDate` is `LocalDateTime.toString`. */
  function OverdueMessage(rental: Rental, email: string, carText: int -> string,
                          formatDate: DateTime -> string): (m: string)
    ensures |m| > 18 && m[..18] == "Rentals overdue! \n"
    ensures Contains(m, "User: " + email)
    ensures Contains(m, "Car: " + carText(rental.carId))
    ensures Contains(m, "Return date: " + formatDate(rental.returnDate))
  {
    var lines := ["Rentals overdue! ", "User: " + email, "Car: " + carText(rental.carId),
                  "Return date: " + formatDate(rental.returnDate)];
    JoinLinesStartsWithFirst(lines);
    JoinLinesContains(lines, 1);
    JoinLinesContains(lines, 2);
    JoinLinesContains(lines, 3);
    JoinLines(lines)
  }

  /** The reports for a list of overdue rentals, one per rental, in order. */
  function OverdueNotices(rs: seq<Rental>, users: map<int, User>, carText: int -> string,
                          formatDate: DateTime -> string): (out: seq<string>)
    requires UsersLinked(users, rs)
    ensures |out| == |rs|
    ensures forall k :: 0 <= k < |rs| ==>
              out[k] == OverdueMessage(rs[k], users[rs[k].userId].email, carText, formatDate)
    decreases |rs|
  {
    if rs == [] then []
    else
      var init := rs[..|rs| - 1];
      var last := rs[|rs| - 1];
      assert forall k :: 0 <= k < |init| ==> init[k] == rs[k];
      OverdueNotices(init, users, carText, formatDate)
        + [OverdueMessage(last, users[last.userId].email, carText, formatDate)]
  }

  /** The rentals of one report split into a prefix and the next one give the
      prefix's report followed by one more message. */
  lemma {:induction false} OverdueNoticesStep(rs: seq<Rental>, i: nat, users: map<int, User>,
                                              carText: int -> string, formatDate: DateTime -> string)
    requires i < |rs| && UsersLinked(users, rs)
    ensures UsersLinked(users, rs[..i]) && UsersLinked(users, rs[..i + 1])
    ensures OverdueNotices(rs[..i + 1], users, carText, formatDate)
            == OverdueNotices(rs[..i], users, carText, formatDate)
               + [OverdueMessage(rs[i], users[rs[i].userId].email, carText, formatDate)]
  {
    assert rs[..i + 1][..i] == rs[..i];
    assert forall r :: r in rs[..i + 1] ==> r in rs;
  }

  /** When some rental is overdue the "nothing overdue" text is never sent
      among the reports. */
  lemma {:induction false} NoticesNeverSayNothingOverdue(rs: seq<Rental>, users: map<int, User>,
                                                         carText: int -> string, formatDate: DateTime -> string)
    requires UsersLinked(users, rs)
    ensures NothingOverdue !in OverdueNotices(rs, users, carText, formatDate)
  {
    var out := OverdueNotices(rs, users, carText, formatDate);
    forall k | 0 <= k < |out| ensures out[k] != NothingOverdue {
      assert out[k][0] == 'R';
      assert NothingOverdue[0] == 'N';
    }
  }

  /** How many of `msgs` go out before the first one the Telegram call
      rejects: all of them when none is rejected. */
  function FirstUndelivered(msgs: seq<string>, delivers: string -> bool): (k: nat)
    ensures k <= |msgs|
    ensures forall j :: 0 <= j < k ==> delivers(msgs[j])
    ensures k < |msgs| ==> !delivers(msgs[k])
  {
    if msgs == [] || !delivers(msgs[0]) then 0
    else 1 + FirstUndelivered(msgs[1..], delivers)
  }

  /** When every message before position `i` is accepted and the one at
      `i` (if any) is rejected, exactly `i` messages go out. */
  lemma {:induction false} StopsAtFirstRejected(msgs: seq<string>, delivers: string -> bool, i: nat)
    requires i <= |msgs| && forall j :: 0 <= j < i ==> delivers(msgs[j])
    requires i < |msgs| ==> !delivers(msgs[i])
    ensures FirstUndelivered(msgs, delivers) == i
  {
  }

  /** The loop of `checkOverdueRental`: each message in order, until the
      Telegram call throws. */
  method SendEach(log: NotificationLog, msgs: seq<string>, delivers: string -> bool) returns (r: Result<()>)
    modifies log
    ensures r.Err? ==> r.error == Notification
    ensures r.Ok? <==> FirstUndelivered(msgs, delivers) == |msgs|
    ensures log.messages == old(log.messages) + msgs[..FirstUndelivered(msgs, delivers)]
  {
    var i := 0;
    while i < |msgs|
      invariant 0 <= i <= |msgs|
      invariant forall j :: 0 <= j < i ==> delivers(msgs[j])
      invariant log.messages == old(log.messages) + msgs[..i]
    {
      var sent := log.Send(msgs[i], delivers);
      if sent.Err? {
        StopsAtFirstRejected(msgs, delivers, i);
        return sent;
      }
      assert msgs[..i + 1] == msgs[..i] + [msgs[i]];
      i := i + 1;
    }
    assert msgs[..i] == msgs;
    StopsAtFirstRejected(msgs, delivers, i);
    return Ok(());
  }

  /** `checkOverdueRental` at time `now`: one "nothing overdue" message when
      no rental is overdue, otherwise one report per overdue rental in query
      order. A Telegram call that throws (`delivers` false) ends the run
      with `Notification`: the reports before it stay sent, none after it
      is sent. Nothing but the log changes. */
  method CheckOverdueRental(rentals: RentalRepository, users: UserRepository, log: NotificationLog,
                            now: DateTime, carText: int -> string, formatDate: DateTime -> string,
                            delivers: string -> bool) returns (r: Result<()>)
    requires UsersLinked(users.users, rentals.rentals)
    modifies log
    ensures r.Err? ==> r.error == Notification
    ensures var overdue := OverdueRentals(rentals.rentals, now);
            UsersLinked(users.users, overdue)
            && (|overdue| == 0 ==>
                  && (r.Ok? <==> delivers(NothingOverdue))
                  && log.messages == old(log.messages) + (if delivers(NothingOverdue) then [NothingOverdue] else []))
            && (|overdue| > 0 ==>
                  var notices := OverdueNotices(overdue, users.users, carText, formatDate);
                  var sent := FirstUndelivered(notices, delivers);
                  && (r.Ok? <==> sent == |notices|)
                  && log.messages == old(log.messages) + notices[..sent])
  {
    var overdue := OverdueRentals(rentals.rentals, now);
    assert UsersLinked(users.users, overdue);
    if |overdue| == 0 {
      r := log.Send(NothingOverdue, delivers);
      return;
    }
    var notices := OverdueNotices(overdue, users.users, carText, formatDate);
    r := SendEach(log, notices, delivers);
  }
}
