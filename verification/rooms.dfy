/**
 * One meeting room and the updates a page run applies to it: attendance,
 * the admin's meeting info, discussion items, notes and action items, the
 * review confirmations, and the admin's confirmation summary.
 */
module Rooms {
  import opened Wrappers

  /** The meeting metadata the admin enters. Dates and times are kept as the
      strings the form produced; the clock that supplies their defaults is
      outside the model. */
  datatype MeetingInfo = MeetingInfo(date: string, place: string, time: string, task: string)

  /** A hazard raised in the meeting and the safety measure agreed for it. */
  datatype DiscussionItem = DiscussionItem(risk: string, measure: string)

  /** An action item: who does what, by when. */
  datatype Task = Task(person: string, duty: string, deadline: string)

  /** The shared record of one meeting. `info` is None in a new room (the
      script starts it as an empty dictionary); `SetInfo` fills it. */
  datatype Room = Room(
    admin: string,
    members: seq<string>,
    attendees: seq<string>,
    confirmations: seq<string>,
    discussion: seq<DiscussionItem>,
    tasks: seq<Task>,
    info: Option<MeetingInfo>,
    notes: string)

  /** What the confirmation section tells the user. */
  datatype ConfirmStatus = Confirmed | AlreadyConfirmed

  /** The admin's view of who has signed: the displayed count, the member
      total, and one confirmed flag per member in member order. */
  datatype Summary = Summary(confirmed: nat, total: nat, statuses: seq<bool>)

  predicate NoDup<T(==)>(s: seq<T>) {
    forall i, j :: 0 <= i < j < |s| ==> s[i] != s[j]
  }

  /** A room as created at admin login: the given admin and members and
      nothing else recorded yet. */
  function NewRoom(admin: string, members: seq<string>): Room {
    Room(admin, members, [], [], [], [], None, "")
  }

  /** Marks `user` as having opened the room, once. */
  function RecordAttendance(room: Room, user: string): (r: Room)
    ensures user in r.attendees
    ensures room.attendees <= r.attendees
    ensures user in room.attendees ==> r == room
    ensures user !in room.attendees ==> r.attendees == room.attendees + [user]
    ensures multiset(r.attendees)[user] == if user in room.attendees then multiset(room.attendees)[user] else 1
    ensures NoDup(room.attendees) ==> NoDup(r.attendees)
    ensures r == room.(attendees := r.attendees)
  {
    if user in room.attendees then room else room.(attendees := room.attendees + [user])
  }

  /** The admin's meeting-info form replaces the whole record. */
  function SetInfo(room: Room, info: MeetingInfo): (r: Room)
    ensures r.info == Some(info)
    ensures r == room.(info := r.info)
  {
    room.(info := Some(info))
  }

  /** The admin's notes box replaces the notes. */
  function SetNotes(room: Room, notes: string): (r: Room)
    ensures r.notes == notes
    ensures r == room.(notes := r.notes)
  {
    room.(notes := notes)
  }

  /** Info is overwritten, not merged: of two submissions only the last
      one remains. */
  lemma SetInfoLastWins(room: Room, first: MeetingInfo, second: MeetingInfo)
    ensures SetInfo(SetInfo(room, first), second) == SetInfo(room, second)
  {
  }

  /** Notes are overwritten, not appended to. */
  lemma SetNotesLastWins(room: Room, first: string, second: string)
    ensures SetNotes(SetNotes(room, first), second) == SetNotes(room, second)
  {
  }

  /** Adds a discussion item when both the risk and the measure are filled
      in; otherwise the room is left as it was. */
  function AddDiscussion(room: Room, risk: string, measure: string): (r: Room)
    ensures room.discussion <= r.discussion
    ensures |r.discussion| == |room.discussion| + 1 <==> risk != "" && measure != ""
    ensures |r.discussion| > |room.discussion| ==> r.discussion[|room.discussion|] == DiscussionItem(risk, measure)
    ensures |r.discussion| <= |room.discussion| + 1
    ensures r == room.(discussion := r.discussion)
  {
    if risk != "" && measure != "" then
      room.(discussion := room.discussion + [DiscussionItem(risk, measure)])
    else
      room
  }

  /** Adds an action item when the person and the duty are filled in. The
      deadline is not checked. */
  function AddTask(room: Room, person: string, duty: string, deadline: string): (r: Room)
    ensures room.tasks <= r.tasks
    ensures |r.tasks| == |room.tasks| + 1 <==> person != "" && duty != ""
    ensures |r.tasks| > |room.tasks| ==> r.tasks[|room.tasks|] == Task(person, duty, deadline)
    ensures |r.tasks| <= |room.tasks| + 1
    ensures r == room.(tasks := r.tasks)
  {
    if person != "" && duty != "" then
      room.(tasks := room.tasks + [Task(person, duty, deadline)])
    else
      room
  }

  /** The confirmation section of one page run. A user who has not signed
      is offered the button, and pressing it signs them (`Confirmed`). A
      user who has signed sees "already confirmed" instead of the button,
      on every run, and nothing changes (`AlreadyConfirmed`). */
  function Confirm(room: Room, user: string): (r: (Room, ConfirmStatus))
    ensures r.1 == AlreadyConfirmed <==> user in room.confirmations
    ensures user in r.0.confirmations
    ensures room.confirmations <= r.0.confirmations
    ensures r.1 == AlreadyConfirmed ==> r.0 == room
    ensures r.1 == Confirmed ==> r.0.confirmations == room.confirmations + [user]
    ensures multiset(r.0.confirmations)[user] == if user in room.confirmations then multiset(room.confirmations)[user] else 1
    ensures NoDup(room.confirmations) ==> NoDup(r.0.confirmations)
    ensures r.0 == room.(confirmations := r.0.confirmations)
  {
    if user in room.confirmations then (room, AlreadyConfirmed)
    else (room.(confirmations := room.confirmations + [user]), Confirmed)
  }

  /** One flag per member, in member order: has that member signed? */
  function Statuses(members: seq<string>, confirmations: seq<string>): (st: seq<bool>)
    ensures |st| == |members|
    ensures forall i :: 0 <= i < |members| ==> (st[i] <==> members[i] in confirmations)
  {
    if members == [] then []
    else [members[0] in confirmations] + Statuses(members[1..], confirmations)
  }

  /** The admin's signature overview. The count shown is the number of
      confirmations, whoever gave them, over the number of members. */
  function ConfirmationSummary(room: Room): (s: Summary)
    ensures s.confirmed == |room.confirmations|
    ensures s.total == |room.members| && |s.statuses| == s.total
    ensures forall i :: 0 <= i < s.total ==> (s.statuses[i] <==> room.members[i] in room.confirmations)
  {
    Summary(|room.confirmations|, |room.members|, Statuses(room.members, room.confirmations))
  }

  /** Number of true flags. */
  function CountTrue(bs: seq<bool>): nat {
    if bs == [] then 0 else (if bs[0] then 1 else 0) + CountTrue(bs[1..])
  }

  function Elems<T>(s: seq<T>): set<T> {
    set x | x in s
  }

  /** A list without repeats has as many distinct elements as entries. */
  lemma {:induction false} NoDupCard<T>(s: seq<T>)
    requires NoDup(s)
    ensures |Elems(s)| == |s|
  {
    if s != [] {
      NoDupCard(s[1..]);
      assert Elems(s) == {s[0]} + Elems(s[1..]);
      assert s[0] !in Elems(s[1..]);
    }
  }

  /** The number of ticked members is the number of distinct members who
      signed. */
  lemma {:induction false} CountTrueStatuses(members: seq<string>, confirmations: seq<string>)
    requires NoDup(members)
    ensures CountTrue(Statuses(members, confirmations)) == |Elems(members) * Elems(confirmations)|
  {
    if members != [] {
      var m, rest := members[0], members[1..];
      var c := Elems(confirmations);
      var a := Elems(rest) * c;
      CountTrueStatuses(rest, confirmations);
      assert CountTrue(Statuses(members, confirmations))
             == (if m in c then 1 else 0) + CountTrue(Statuses(rest, confirmations));
      assert m !in a;
      if m in c {
        assert Elems(members) * c == {m} + a;
        assert |{m} + a| == |a| + 1;
      } else {
        assert Elems(members) * c == a;
      }
    }
  }

  /** When only members sign, and nobody signs or is listed twice, the
      displayed count equals the number of ticked members. */
  lemma SummaryCountMatchesTicks(room: Room)
    requires NoDup(room.members) && NoDup(room.confirmations)
    requires forall u :: u in room.confirmations ==> u in room.members
    ensures ConfirmationSummary(room).confirmed == CountTrue(ConfirmationSummary(room).statuses)
  {
    CountTrueStatuses(room.members, room.confirmations);
    assert Elems(room.members) * Elems(room.confirmations) == Elems(room.confirmations);
    NoDupCard(room.confirmations);
  }

  /** The displayed count is not restricted to members: an admin who is not
      on the member list and signs is counted, while no member is ticked. */
  lemma SummaryCountsNonMembers()
    ensures var room := Confirm(NewRoom("Kim", ["Park", "Lee"]), "Kim").0;
            var s := ConfirmationSummary(room);
            s.confirmed == 1 && s.total == 2 && CountTrue(s.statuses) == 0
  {
    var room := Confirm(NewRoom("Kim", ["Park", "Lee"]), "Kim").0;
    var s := ConfirmationSummary(room);
    assert room.confirmations == ["Kim"];
    assert !s.statuses[0] && !s.statuses[1];
    assert s.statuses == [false, false];
  }

  /** Recording the same user's attendance any number of times. */
  function AttendTimes(room: Room, user: string, n: nat): Room {
    if n == 0 then room else RecordAttendance(AttendTimes(room, user, n - 1), user)
  }

  /** However often a user opens the room, they are listed exactly once
      (if they were listed at most once before). */
  lemma {:induction false} AttendTimesOnce(room: Room, user: string, n: nat)
    requires multiset(room.attendees)[user] <= 1
    requires n >= 1
    ensures multiset(AttendTimes(room, user, n).attendees)[user] == 1
    ensures room.attendees <= AttendTimes(room, user, n).attendees
  {
    if n > 1 {
      AttendTimesOnce(room, user, n - 1);
    }
  }

  /** Pressing the review button `n` times, with the status of each press. */
  function ConfirmTimes(room: Room, user: string, n: nat): (Room, seq<ConfirmStatus>) {
    if n == 0 then (room, [])
    else
      var (r, st) := ConfirmTimes(room, user, n - 1);
      var (r', s) := Confirm(r, user);
      (r', st + [s])
  }

  /** Repeated confirmation by one user signs them exactly once; every press
      after the first reports that they had already confirmed. */
  lemma {:induction false} ConfirmTimesOnce(room: Room, user: string, n: nat)
    requires user !in room.confirmations
    requires n >= 1
    ensures var (r, st) := ConfirmTimes(room, user, n);
            && multiset(r.confirmations)[user] == 1
            && room.confirmations <= r.confirmations
            && |st| == n && st[0] == Confirmed
            && forall i :: 1 <= i < n ==> st[i] == AlreadyConfirmed
  {
    if n > 1 {
      ConfirmTimesOnce(room, user, n - 1);
    }
  }
}
