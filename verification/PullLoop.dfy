/**
 The pull loop as it runs while nothing stands still: between any two pages other devices push, what
 the user may see changes, and the user edits.
 */
module PullLoop {
  import opened Wrappers
  import opened Storage
  import opened Pushing
  import opened Feed
  import opened Devices
  import opened Paging
  import opened Replica
  import Acknowledging
  import Roles

  /** What can happen between two requests of the engine, without its doing. */
  predicate Outside(e: Event) {
    e.Others? || e.Regrant? || e.Edit?
  }

  /** And what of it happens on the device. */
  function Here(d: Device, es: seq<Event>): Device {
    if es == [] then d
    else
      var before, e := Here(d, es[..|es| - 1]), es[|es| - 1];
      if e.Edit? then Edited(before, e.rec) else before
  }

  ghost function EditedKeys(es: seq<Event>): set<Key> {
    set e | e in es && e.Edit? :: e.rec.Key()
  }

  ghost function AllEdited(outside: seq<seq<Event>>): set<Key> {
    set es, e | es in outside && e in es && e.Edit? :: e.rec.Key()
  }

  lemma {:induction false} HereDirties(d: Device, es: seq<Event>)
    requires Versioned(d)
    ensures Versioned(Here(d, es)) && Here(d, es).cursor == d.cursor
    ensures Dirties(Here(d, es)) <= Dirties(d) + EditedKeys(es)
  {
    if es == [] {
    } else {
      var n := |es| - 1;
      var before, e := Here(d, es[..n]), es[n];
      HereDirties(d, es[..n]);
      assert forall k :: k in EditedKeys(es[..n]) ==> k in EditedKeys(es);
      if e.Edit? {
        EditedVersioned(before, e.rec);
        assert e in es && e.rec.Key() in EditedKeys(es);
        forall k | k in Dirties(Edited(before, e.rec)) ensures k in Dirties(before) || k == e.rec.Key() {
          EditedRow(before, e.rec, k);
        }
      }
    }
  }

  /** The server's side by itself: its log and what it lets this user see. */
  datatype Remote = Remote(st: TeamStore, viewer: Viewer)

  function Happens(team: string, r: Remote, e: Event): Remote {
    match e
    case Others(b, sub, role) => if ValidBatch(team, b) then r.(st := Merged(r.st, b, sub, role)) else r
    case Regrant(viewer, _) => r.(viewer := viewer)
    case _ => r
  }

  function Happen(team: string, r: Remote, es: seq<Event>): Remote {
    if es == [] then r else Happens(team, Happen(team, r, es[..|es| - 1]), es[|es| - 1])
  }

  /** And after several such intervals. */
  function AllHappen(team: string, r: Remote, outside: seq<seq<Event>>): Remote
    decreases |outside|
  {
    if outside == [] then r else AllHappen(team, Happen(team, r, outside[0]), outside[1..])
  }

  ghost predicate AllOutside(es: seq<Event>) {
    forall i :: 0 <= i < |es| ==> Outside(es[i])
  }

  /** The device between two requests, as far as the server and the store are concerned. */
  ghost predicate Stands(team: string, w: World, r: Remote, d: Device) {
    Inv(team, w) && Idle(w) && w.server == r.st && w.viewer == r.viewer && w.device == d
  }

  lemma {:induction false} OutsideRun(team: string, w: World, r: Remote, d: Device, es: seq<Event>)
    requires Stands(team, w, r, d) && AllOutside(es)
    ensures Stands(team, Run(team, w, es), Happen(team, r, es), Here(d, es))
  {
    if es == [] {
    } else {
      var pre, e := es[..|es| - 1], es[|es| - 1];
      OutsideRun(team, w, r, d, pre);
      assert Outside(e);
      StepKeeps(team, Run(team, w, pre), e);
    }
  }

  lemma MergeCounts(st: TeamStore, b: Batch, sub: string, role: Roles.Role)
    ensures st.counter <= Merged(st, b, sub, role).counter
  {
    Acknowledging.MovedAll(st, Arrivals(st, b, sub, role), SnipKey(""));
  }

  lemma {:induction false} CounterGrows(team: string, r: Remote, es: seq<Event>)
    ensures r.st.counter <= Happen(team, r, es).st.counter
  {
    if es == [] {
    } else {
      var pre, e := es[..|es| - 1], es[|es| - 1];
      CounterGrows(team, r, pre);
      if e.Others? {
        MergeCounts(Happen(team, r, pre).st, e.batch, e.sub, e.role);
      }
    }
  }

  lemma {:induction false} CounterGrowsOverall(team: string, r: Remote, outside: seq<seq<Event>>)
    ensures r.st.counter <= AllHappen(team, r, outside).st.counter
    decreases |outside|
  {
    if outside == [] {
    } else {
      CounterGrows(team, r, outside[0]);
      CounterGrowsOverall(team, Happen(team, r, outside[0]), outside[1..]);
    }
  }

  // ---- one page ------------------------------------------------------------------------------------------------

  /** Work through one page: each record is applied in turn, groups first. */
  method ApplyPage(ghost team: string, ghost w: World, store: SnippetStore, inbox: seq<Record>) returns (ghost events: seq<Event>)
    requires Inv(team, w) && w.inbox == inbox && w.device == store.View()
    modifies store
    ensures var t := Run(team, w, events);
      Inv(team, t) && t == w.(inbox := [], device := store.View()) && store.cursor == old(store.cursor)
    ensures Dirties(store.View()) <= old(Dirties(store.View()))
  {
    events := [];
    for i := 0 to |inbox|
      invariant var t := Run(team, w, events); Inv(team, t) && t == w.(inbox := inbox[i..], device := store.View())
      invariant store.cursor == old(store.cursor)
      invariant Dirties(store.View()) <= old(Dirties(store.View()))
    {
      ghost var t := Run(team, w, events);
      StepKeeps(team, t, ApplyNext);
      RunSnoc(team, w, events, ApplyNext);
      AppliedDirties(store.View(), FromWire(inbox[i]));
      events := events + [ApplyNext];
      var _ := store.ApplyRemote(FromWire(inbox[i]));
    }
  }

  ghost function PageSteps(applying: seq<Event>): seq<Event> {
    [Fetch(DEFAULT_PAGE)] + applying + [Finish]
  }

  lemma PageRun(team: string, w: World, applying: seq<Event>)
    ensures Run(team, w, PageSteps(applying)) == Step(team, Run(team, Step(team, w, Fetch(DEFAULT_PAGE)), applying), Finish)
  {
    RunSnoc(team, w, [Fetch(DEFAULT_PAGE)] + applying, Finish);
    RunConcat(team, w, [Fetch(DEFAULT_PAGE)], applying);
    RunOne(team, w, Fetch(DEFAULT_PAGE));
  }

  /** What is known of the page a device asks for next. */
  lemma NextPage(team: string, w: World, r: Remote, d: Device)
    requires Stands(team, w, r, d) && r.st.counter < TWO_TO_63
    ensures var page := Serve(r.viewer, StoredPage(r.st, d.cursor, DEFAULT_PAGE));
      var fetched := Step(team, w, Fetch(DEFAULT_PAGE));
      && fetched == w.(inbox := Inbox(page), target := page.nextCursor, skipped := fetched.skipped) && Inv(team, fetched)
      && (page.more ==> |After(r.st.log, page.nextCursor)| < |After(r.st.log, d.cursor)|)
      && (!page.more ==> forall row :: row in r.st.log ==> row.num <= page.nextCursor)
  {
    StoreIsSound(team, w);
    PageLeavesLess(r.viewer, r.st, d.cursor);
    if !Serve(r.viewer, StoredPage(r.st, d.cursor, DEFAULT_PAGE)).more {
      LastPageReachesEnd(r.viewer, r.st, d.cursor, DEFAULT_PAGE);
    }
    StepKeeps(team, w, Fetch(DEFAULT_PAGE));
  }

  lemma CursorDirtiesNothing(d: Device, next: nat)
    ensures Dirties(d.(cursor := next)) == Dirties(d)
  {
    assert forall k :: d.(cursor := next).Dirty(k) == d.Dirty(k);
  }

  lemma PageDone(team: string, w: World, r: Remote, fetched: World, d: Device, applying: seq<Event>)
    requires fetched == Step(team, w, Fetch(DEFAULT_PAGE)) && fetched.flight == map[]
    requires fetched.server == r.st && fetched.viewer == r.viewer
    requires Inv(team, Run(team, fetched, applying)) && Run(team, fetched, applying) == fetched.(inbox := [], device := d)
    ensures Stands(team, Run(team, w, PageSteps(applying)), r, d.(cursor := fetched.target))
  {
    StepKeeps(team, fetched.(inbox := [], device := d), Finish);
    PageRun(team, w, applying);
  }

  /** One page, from the request to the new cursor. */
  method PullPage(team: string, ghost w: World, r: Remote, store: SnippetStore) returns (more: bool, ghost events: seq<Event>)
    requires Stands(team, w, r, store.View()) && r.st.counter < TWO_TO_63
    modifies store
    ensures Stands(team, Run(team, w, events), r, store.View())
    ensures more ==> |After(r.st.log, store.cursor)| < |After(r.st.log, old(store.cursor))|
    ensures !more ==> forall row :: row in r.st.log ==> row.num <= store.cursor
    ensures Dirties(store.View()) <= old(Dirties(store.View()))
  {
    NextPage(team, w, r, store.View());
    var page := Serve(r.viewer, StoredPage(r.st, store.cursor, DEFAULT_PAGE));
    ghost var fetched := Step(team, w, Fetch(DEFAULT_PAGE));
    ghost var applying := ApplyPage(team, fetched, store, Inbox(page));
    PageDone(team, w, r, fetched, store.View(), applying);
    CursorDirtiesNothing(store.View(), page.nextCursor);
    events := PageSteps(applying);
    store.SetCursor(page.nextCursor);
    more := page.more;
  }

  // ---- between two pages ------------------------------------------------------------------------------------------

  /** The user's part of what happens between two requests. */
  method Interlude(store: SnippetStore, es: seq<Event>)
    modifies store
    ensures store.View() == Here(old(store.View()), es)
  {
    for i := 0 to |es|
      invariant store.View() == Here(old(store.View()), es[..i])
    {
      assert es[..i + 1][..i] == es[..i];
      if es[i].Edit? {
        store.Edit(es[i].rec);
      }
    }
    assert es[..|es|] == es;
  }

  // ---- the loop ------------------------------------------------------------------------------------------------

  lemma FirstEdited(outside: seq<seq<Event>>)
    requires outside != []
    ensures EditedKeys(outside[0]) <= AllEdited(outside) && AllEdited(outside[1..]) <= AllEdited(outside)
  {
    forall k | k in EditedKeys(outside[0]) ensures k in AllEdited(outside) {
      var e :| e in outside[0] && e.Edit? && e.rec.Key() == k;
      assert outside[0] in outside;
    }
    forall k | k in AllEdited(outside[1..]) ensures k in AllEdited(outside) {
      var es, e :| es in outside[1..] && e in es && e.Edit? && e.rec.Key() == k;
      assert es in outside;
    }
  }

  /**
   `pull_team`: page after page until one is not cut, with `outside[i]` happening before the i-th
   request. It ends once the others leave it a moment, it is a run of the steps of `Replica`, nothing but
   what the user edits becomes dirty, and the cursor is past every row the server had at the last request.
   */
  method PullTeam(team: string, ghost w: World, start: Remote, store: SnippetStore, outside: seq<seq<Event>>)
    returns (end: Remote, ghost events: seq<Event>)
    requires Stands(team, w, start, store.View())
    requires forall i :: 0 <= i < |outside| ==> AllOutside(outside[i])
    requires AllHappen(team, start, outside).st.counter < TWO_TO_63
    modifies store
    ensures Stands(team, Run(team, w, events), end, store.View())
    ensures forall row :: row in end.st.log ==> row.num <= store.cursor
    ensures Dirties(store.View()) <= old(Dirties(store.View())) + AllEdited(outside)
  {
    end := start;
    events := [];
    ghost var page;
    var rest := outside;
    var more := true;
    while more
      invariant Stands(team, Run(team, w, events), end, store.View())
      invariant forall i :: 0 <= i < |rest| ==> AllOutside(rest[i])
      invariant AllHappen(team, end, rest).st.counter < TWO_TO_63
      invariant AllEdited(rest) <= AllEdited(outside)
      invariant Dirties(store.View()) <= old(Dirties(store.View())) + AllEdited(outside)
      invariant !more ==> forall row :: row in end.st.log ==> row.num <= store.cursor
      decreases |rest|, if more then |After(end.st.log, store.cursor)| + 1 else 0
    {
      if rest != [] {
        OutsideRun(team, Run(team, w, events), end, store.View(), rest[0]);
        HereDirties(store.View(), rest[0]);
        FirstEdited(rest);
        RunConcat(team, w, events, rest[0]);
        events := events + rest[0];
        Interlude(store, rest[0]);
        end := Happen(team, end, rest[0]);
        rest := rest[1..];
      }
      CounterGrowsOverall(team, end, rest);
      more, page := PullPage(team, Run(team, w, events), end, store);
      RunConcat(team, w, events, page);
      events := events + page;
    }
  }
}
