/**
 * A logged-in user's page runs. Login either creates a room (admin) or
 * joins one (member). Every later page run first records the user's
 * attendance and then applies at most one form action, with the admin-only
 * sections ignored for members.
 */
module Sessions {
  import opened Wrappers
  import opened Text
  import opened Rooms
  import opened RoomStore

  /** The role chosen on the login form. */
  datatype Role = Admin | Member

  /** Who is logged in, as what, into which room. */
  datatype Session = Session(user: string, role: Role, code: string)

  /** What one page run submits. `View` submits nothing. */
  datatype Action =
    | View
    | EditInfo(info: MeetingInfo)
    | AddDiscussionItem(risk: string, measure: string)
    | EditNotes(text: string)
    | AddActionItem(person: string, duty: string, deadline: string)
    | ConfirmReview

  /** The login form. An admin always gets in, creating (or replacing) the
      room; a member gets in only through the join check, and the store is
      then left as it was. */
  function Login(store: Store, name: string, role: Role, code: string, csv: string)
    : (r: Result<(Store, Session), AuthError>)
    ensures r.Success? <==> role == Admin || (code in store && name in store[code].members)
    ensures r.Success? ==> r.value.1 == Session(name, role, code) && code in r.value.0
    ensures role == Admin ==> r.Success? && r.value.0 == CreateRoom(store, code, name, csv)
    ensures role == Member && r.Success? ==> r.value.0 == store
  {
    match role
    case Admin => Success((CreateRoom(store, code, name, csv), Session(name, Admin, code)))
    case Member =>
      match JoinRoom(store, code, name)
      case Success(_) => Success((store, Session(name, Member, code)))
      case Failure(e) => Failure(e)
  }

  /** The form action of one page run, applied to the room after attendance
      has been recorded. Info, discussion, notes and action items are
      admin-only sections; confirmation is open to everyone. Each action
      changes only its own section. */
  function Perform(room: Room, s: Session, a: Action): (r: Room)
    ensures r.admin == room.admin && r.members == room.members && r.attendees == room.attendees
    ensures room.confirmations <= r.confirmations
    ensures Elems(r.confirmations) <= Elems(room.confirmations) + {s.user}
    ensures NoDup(room.confirmations) ==> NoDup(r.confirmations)
    ensures s.role == Member ==>
              r.info == room.info && r.notes == room.notes && r.discussion == room.discussion && r.tasks == room.tasks
    ensures room.discussion <= r.discussion && room.tasks <= r.tasks
    ensures a.View? ==> r == room
    ensures a.ConfirmReview? ==> s.user in r.confirmations
    ensures a.ConfirmReview? && s.user !in room.confirmations ==> r.confirmations == room.confirmations + [s.user]
    ensures a.ConfirmReview? && s.user in room.confirmations ==> r == room
    ensures s.role == Admin && a.EditInfo? ==> r.info == Some(a.info)
    ensures s.role == Admin && a.EditNotes? ==> r.notes == a.text
    ensures s.role == Admin && a.AddDiscussionItem? ==>
              r.discussion == if a.risk != "" && a.measure != ""
                              then room.discussion + [DiscussionItem(a.risk, a.measure)]
                              else room.discussion
    ensures s.role == Admin && a.AddActionItem? ==>
              r.tasks == if a.person != "" && a.duty != ""
                         then room.tasks + [Task(a.person, a.duty, a.deadline)]
                         else room.tasks
    ensures !a.ConfirmReview? ==> r.confirmations == room.confirmations
    ensures !(s.role == Admin && a.EditInfo?) ==> r.info == room.info
    ensures !(s.role == Admin && a.EditNotes?) ==> r.notes == room.notes
    ensures !(s.role == Admin && a.AddDiscussionItem?) ==> r.discussion == room.discussion
    ensures !(s.role == Admin && a.AddActionItem?) ==> r.tasks == room.tasks
  {
    match a
    case View => room
    case ConfirmReview => Confirm(room, s.user).0
    case EditInfo(info) => if s.role == Admin then SetInfo(room, info) else room
    case AddDiscussionItem(risk, measure) => if s.role == Admin then AddDiscussion(room, risk, measure) else room
    case EditNotes(text) => if s.role == Admin then SetNotes(room, text) else room
    case AddActionItem(p, d, due) => if s.role == Admin then AddTask(room, p, d, due) else room
  }

  /** One page run of a logged-in user: attendance first, then the action.
      Only the session's room changes; attendees, confirmations, discussion
      and tasks only grow; a member never changes the admin's sections; the
      submitted action takes effect as its room-level update says. */
  function Act(store: Store, s: Session, a: Action): (r: Store)
    requires s.code in store
    ensures r.Keys == store.Keys
    ensures forall c :: c in store && c != s.code ==> r[c] == store[c]
    ensures s.user in r[s.code].attendees
    ensures store[s.code].attendees <= r[s.code].attendees
    ensures store[s.code].confirmations <= r[s.code].confirmations
    ensures store[s.code].discussion <= r[s.code].discussion
    ensures store[s.code].tasks <= r[s.code].tasks
    ensures r[s.code].admin == store[s.code].admin && r[s.code].members == store[s.code].members
    ensures s.role == Member ==>
              var before, after := store[s.code], r[s.code];
              after.info == before.info && after.notes == before.notes
              && after.discussion == before.discussion && after.tasks == before.tasks
    ensures a.View? ==> r[s.code] == RecordAttendance(store[s.code], s.user)
    ensures a.ConfirmReview? ==> s.user in r[s.code].confirmations
    ensures a.ConfirmReview? && s.user !in store[s.code].confirmations ==>
              r[s.code].confirmations == store[s.code].confirmations + [s.user]
    ensures a.ConfirmReview? && s.user in store[s.code].confirmations ==>
              r[s.code].confirmations == store[s.code].confirmations
    ensures r[s.code].attendees == RecordAttendance(store[s.code], s.user).attendees
    ensures s.role == Admin && a.EditInfo? ==> r[s.code].info == Some(a.info)
    ensures s.role == Admin && a.EditNotes? ==> r[s.code].notes == a.text
    ensures s.role == Admin && a.AddDiscussionItem? ==>
              r[s.code].discussion == if a.risk != "" && a.measure != ""
                                      then store[s.code].discussion + [DiscussionItem(a.risk, a.measure)]
                                      else store[s.code].discussion
    ensures s.role == Admin && a.AddActionItem? ==>
              r[s.code].tasks == if a.person != "" && a.duty != ""
                                 then store[s.code].tasks + [Task(a.person, a.duty, a.deadline)]
                                 else store[s.code].tasks
    ensures !a.ConfirmReview? ==> r[s.code].confirmations == store[s.code].confirmations
    ensures !(s.role == Admin && a.EditInfo?) ==> r[s.code].info == store[s.code].info
    ensures !(s.role == Admin && a.EditNotes?) ==> r[s.code].notes == store[s.code].notes
    ensures !(s.role == Admin && a.AddDiscussionItem?) ==> r[s.code].discussion == store[s.code].discussion
    ensures !(s.role == Admin && a.AddActionItem?) ==> r[s.code].tasks == store[s.code].tasks
  {
    PutRoom(store, s.code, Perform(RecordAttendance(store[s.code], s.user), s, a))
  }

  /** The room invariant page runs keep: nobody is listed twice as attendee
      or as signer, and every signer has opened the room. */
  predicate Consistent(room: Room) {
    && NoDup(room.attendees)
    && NoDup(room.confirmations)
    && forall u :: u in room.confirmations ==> u in room.attendees
  }

  predicate ConsistentStore(store: Store) {
    forall c :: c in store ==> Consistent(store[c])
  }

  /** Login keeps every room consistent. */
  lemma LoginPreservesConsistency(store: Store, name: string, role: Role, code: string, csv: string)
    requires ConsistentStore(store)
    ensures var r := Login(store, name, role, code, csv);
            r.Success? ==> ConsistentStore(r.value.0)
  {
  }

  /** A page run keeps every room consistent. */
  lemma ActPreservesConsistency(store: Store, s: Session, a: Action)
    requires s.code in store && ConsistentStore(store)
    ensures ConsistentStore(Act(store, s, a))
  {
    var room := RecordAttendance(store[s.code], s.user);
    var after := Perform(room, s, a);
    var r := Act(store, s, a);
    assert r[s.code] == after;
    assert Consistent(after) by {
      forall u | u in after.confirmations
        ensures u in after.attendees
      {
        assert u in Elems(after.confirmations);
      }
    }
    forall c | c in r
      ensures Consistent(r[c])
    {
      if c != s.code {
        assert r[c] == store[c];
      }
    }
  }

  /** A sequence of page runs by one logged-in user. */
  function Run(store: Store, s: Session, actions: seq<Action>): (r: Store)
    requires s.code in store
    ensures r.Keys == store.Keys
    decreases |actions|
  {
    if actions == [] then store
    else Run(Act(store, s, actions[0]), s, actions[1..])
  }

  /** Any sequence of page runs keeps the store consistent, leaves other
      rooms alone, never shrinks the session room's lists and, for a member,
      leaves the admin's sections as they were. */
  lemma {:induction false} RunPreserves(store: Store, s: Session, actions: seq<Action>)
    requires s.code in store && ConsistentStore(store)
    ensures var r := Run(store, s, actions);
            && ConsistentStore(r)
            && (forall c :: c in store && c != s.code ==> r[c] == store[c])
            && store[s.code].attendees <= r[s.code].attendees
            && store[s.code].confirmations <= r[s.code].confirmations
            && store[s.code].discussion <= r[s.code].discussion
            && store[s.code].tasks <= r[s.code].tasks
            && (s.role == Member ==>
                  r[s.code].info == store[s.code].info && r[s.code].notes == store[s.code].notes
                  && r[s.code].discussion == store[s.code].discussion && r[s.code].tasks == store[s.code].tasks)
    decreases |actions|
  {
    if actions != [] {
      var next := Act(store, s, actions[0]);
      ActPreservesConsistency(store, s, actions[0]);
      RunPreserves(next, s, actions[1..]);
    }
  }

  /** Admin Kim opening room A1 for "Kim,Park,Lee" yields a store holding
      just that room, with three members and nothing recorded. */
  lemma KimOpensA1()
    ensures Login(map[], "Kim", Admin, "A1", "Kim,Park,Lee")
            == Success((map["A1" := NewRoom("Kim", ["Kim", "Park", "Lee"])], Session("Kim", Admin, "A1")))
  {
    ParsesKimParkLee();
  }

  /** The walk-through continued in room A1: Park may join and Choi may
      not. */
  lemma A1Joins()
    ensures var s0 := map["A1" := NewRoom("Kim", ["Kim", "Park", "Lee"])];
            && Login(s0, "Choi", Member, "A1", "").Failure?
            && Login(s0, "Park", Member, "A1", "") == Success((s0, Session("Park", Member, "A1")))
  {
  }

  /** The meeting in room A1: the info and discussion item the admin enters
      are what is stored, and Park's confirmation is the only signature,
      shown as 1 of 3. */
  lemma A1Meeting()
    ensures var s0 := map["A1" := NewRoom("Kim", ["Kim", "Park", "Lee"])];
            var kim := Session("Kim", Admin, "A1");
            var info := MeetingInfo("2024-01-01", "Site A", "09:00", "Lift work");
            var s1 := Act(Act(s0, kim, EditInfo(info)), kim, AddDiscussionItem("Fall hazard", "Use harness"));
            var s2 := Act(s1, Session("Park", Member, "A1"), ConfirmReview);
            && s2["A1"].info == Some(info)
            && s2["A1"].discussion == [DiscussionItem("Fall hazard", "Use harness")]
            && s2["A1"].confirmations == ["Park"]
            && ConfirmationSummary(s2["A1"]).confirmed == 1
            && ConfirmationSummary(s2["A1"]).total == 3
  {
    var s0 := map["A1" := NewRoom("Kim", ["Kim", "Park", "Lee"])];
    var kim := Session("Kim", Admin, "A1");
    var info := MeetingInfo("2024-01-01", "Site A", "09:00", "Lift work");
    var item := DiscussionItem("Fall hazard", "Use harness");
    var room1 := Room("Kim", ["Kim", "Park", "Lee"], ["Kim"], [], [], [], Some(info), "");
    assert RecordAttendance(s0["A1"], "Kim") == room1.(info := None);
    var t1 := Act(s0, kim, EditInfo(info));
    assert t1["A1"] == room1;
    var room2 := room1.(discussion := [item]);
    assert RecordAttendance(room1, "Kim") == room1;
    var t2 := Act(t1, kim, AddDiscussionItem("Fall hazard", "Use harness"));
    assert t2["A1"] == room2;
    assert RecordAttendance(room2, "Park") == room2.(attendees := ["Kim", "Park"]);
    var t3 := Act(t2, Session("Park", Member, "A1"), ConfirmReview);
    assert t3["A1"] == room2.(attendees := ["Kim", "Park"], confirmations := ["Park"]);
  }

  /** The list "Kim,Park,Lee" parses to three names. */
  lemma ParsesKimParkLee()
    ensures ParseMembers("Kim,Park,Lee") == ["Kim", "Park", "Lee"]
  {
    var names := ["Kim", "Park", "Lee"];
    assert Join(names) == "Kim,Park,Lee";
    ParseJoined(names);
  }
}
