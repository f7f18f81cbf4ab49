/**
 * One browser session exactly as the script keeps it. Streamlit's
 * `st.session_state` belongs to a single browser session, and the script
 * creates its room table there (streamlit_meeting_form.py:10-15). So every
 * visitor starts with an empty table of their own, and no room one visitor
 * creates is visible to another. This module models that behaviour and
 * shows its consequence: a member can never get past the login page. The
 * rest of the model uses the shared table that was evidently intended.
 */
module Browser {
  import opened Wrappers
  import opened Text
  import opened RoomStore
  import opened Sessions

  /** What one browser session keeps: who is logged in, if anyone, and its
      own room table. */
  datatype Page = Page(session: Option<Session>, rooms: Store)

  /** A fresh browser session: logged out, with an empty room table. */
  function Fresh(): Page {
    Page(None, map[])
  }

  /** What a visitor does on one page run: press the login form's button,
      or run the page with some room action. */
  datatype Event =
    | LoginPress(name: string, role: Role, code: string, csv: string)
    | PageRun(action: Action)

  /** What holds in every state a browser session can reach: logged out
      means the table is still empty; logged in means an admin whose room
      is in the table. */
  predicate AsWritten(p: Page) {
    && (p.session.None? ==> p.rooms == map[])
    && (p.session.Some? ==> p.session.value.role == Admin && p.session.value.code in p.rooms)
  }

  /** One page run. Logged out, only the login button does anything, and a
      failed member login leaves the page as it was. Logged in, the login
      form is not shown, there is no logout, and each run is a room run:
      attendance, then the submitted action (a plain visit when the event
      came from the login form). */
  function Step(p: Page, e: Event): (r: Page)
    ensures p.session.None? && e.PageRun? ==> r == p
    ensures p.session.None? && e.LoginPress? ==>
              var l := Login(p.rooms, e.name, e.role, e.code, e.csv);
              (r.session.Some? <==> l.Success?)
              && (l.Success? ==> r == Page(Some(l.value.1), l.value.0))
              && (l.Failure? ==> r == p)
    ensures p.session.Some? ==> r.session == p.session
    ensures p.session.Some? && p.session.value.code in p.rooms ==>
              r.rooms == Act(p.rooms, p.session.value, if e.PageRun? then e.action else View)
    ensures AsWritten(p) ==> AsWritten(r)
  {
    match p.session
    case None =>
      (match e
       case PageRun(_) => p
       case LoginPress(name, role, code, csv) =>
         match Login(p.rooms, name, role, code, csv)
         case Success((rooms, s)) => Page(Some(s), rooms)
         case Failure(_) => p)
    case Some(s) =>
      if s.code in p.rooms then
        Page(Some(s), Act(p.rooms, s, if e.PageRun? then e.action else View))
      else
        p  // the script would fail on the missing room; unreachable from `Fresh`
  }

  /** The page after a sequence of runs. */
  function Replay(p: Page, events: seq<Event>): Page
    decreases |events|
  {
    if events == [] then p else Replay(Step(p, events[0]), events[1..])
  }

  /** Any sequence of page runs keeps `AsWritten`. */
  lemma {:induction false} ReplayKeepsAsWritten(p: Page, events: seq<Event>)
    requires AsWritten(p)
    ensures AsWritten(Replay(p, events))
    decreases |events|
  {
    if events != [] {
      ReplayKeepsAsWritten(Step(p, events[0]), events[1..]);
    }
  }

  /** The consequence: whatever a visitor does in a fresh browser session,
      they are never logged in as a member, and a member's login press is
      always refused. */
  lemma MemberNeverJoins(events: seq<Event>, name: string, code: string, csv: string)
    ensures var p := Replay(Fresh(), events);
            && (p.session.Some? ==> p.session.value.role == Admin)
            && (p.session.None? ==> Step(p, LoginPress(name, Member, code, csv)) == p)
  {
    ReplayKeepsAsWritten(Fresh(), events);
  }

  /** Park, listed by Kim, opens the page in a browser of their own and
      presses the join button for room A1: the table there is empty, so the
      press is refused, even right after Kim opened A1 elsewhere. */
  lemma ParkRefusedInOwnBrowser()
    ensures Step(Fresh(), LoginPress("Park", Member, "A1", "")) == Fresh()
    ensures Replay(Fresh(), [LoginPress("Kim", Admin, "A1", "Kim,Park,Lee")]).session
            == Some(Session("Kim", Admin, "A1"))
  {
  }

  /** With one table shared by all visitors, as intended, a member may join
      the admin's room exactly when their name is one of the stripped
      fields of the admin's member list. */
  lemma MemberJoinsSharedTable(store: Store, admin: string, code: string, csv: string, name: string, csv2: string)
    ensures var shared := Login(store, admin, Admin, code, csv).value.0;
            (Login(shared, name, Member, code, csv2).Success?
             <==> exists k :: 0 <= k < |Split(csv)| && Strip(Split(csv)[k]) == name)
  {
    JoinAfterCreate(store, code, admin, csv, name);
  }
}
