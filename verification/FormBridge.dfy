/**
 The blocked form request: the engine waits on the bridge until the form page submits, cancels or
 goes away, or time runs out. The page, the two commands and the waiting request run at their own
 pace; every interleaving of their steps is a list of events here. Request ids are fresh.
 */
module FormBridge {
  import opened Wrappers

  type Rid = string

  datatype FormReply = Submitted(text: string) | Cancelled

  datatype Answer = Filled(text: string) | Aborted

  // ---- the bridge: senders, delivered replies, waiting requests ---------------------------------

  datatype Boxes = Boxes(pending: set<Rid>, inbox: map<Rid, FormReply>, waiting: set<Rid>)

  /** Take the sender out of the map; the reply arrives if somebody still waits for it. */
  function Resolved(b: Boxes, rid: Rid, reply: FormReply): Boxes {
    if rid !in b.pending then b
    else if rid in b.waiting then Boxes(b.pending - {rid}, b.inbox[rid := reply], b.waiting)
    else b.(pending := b.pending - {rid})
  }

  /** A request starts waiting. */
  function Asked(b: Boxes, rid: Rid): Boxes {
    Boxes(b.pending + {rid}, b.inbox, b.waiting + {rid})
  }

  function AnswerOf(reply: FormReply): Answer {
    match reply
    case Submitted(t) => Filled(t)
    case Cancelled => Aborted
  }

  class BridgeState {
    var pendingForms: set<Rid>
    var inbox: map<Rid, FormReply>
    var waiting: set<Rid>

    function View(): Boxes
      reads this
    {
      Boxes(pendingForms, inbox, waiting)
    }

    constructor ()
      ensures View() == Boxes({}, map[], {})
    {
      pendingForms, inbox, waiting := {}, map[], {};
    }

    method Insert(rid: Rid)
      modifies this
      ensures View() == Asked(old(View()), rid)
    {
      pendingForms := pendingForms + {rid};
      waiting := waiting + {rid};
    }

    method Resolve(rid: Rid, reply: FormReply)
      modifies this
      ensures View() == Resolved(old(View()), rid, reply)
    {
      if rid in pendingForms {
        pendingForms := pendingForms - {rid};
        if rid in waiting {
          inbox := inbox[rid := reply];
        }
      }
    }
  }

  datatype Call = Asks(asked: Rid) | Resolves(rid: Rid, reply: FormReply)

  function BoxesAfter(b: Boxes, calls: seq<Call>): Boxes {
    if calls == [] then b
    else
      var before := BoxesAfter(b, calls[..|calls| - 1]);
      match calls[|calls| - 1]
      case Asks(rid) => Asked(before, rid)
      case Resolves(rid, reply) => Resolved(before, rid, reply)
  }

  /** The bridge between two wake-ups: requests come in and commands resolve them, in any order. */
  method Serve(bridge: BridgeState, calls: seq<Call>)
    modifies bridge
    ensures bridge.View() == BoxesAfter(old(bridge.View()), calls)
  {
    for i := 0 to |calls|
      invariant bridge.View() == BoxesAfter(old(bridge.View()), calls[..i])
    {
      assert calls[..i + 1][..i] == calls[..i];
      match calls[i] {
        case Asks(rid) => bridge.Insert(rid);
        case Resolves(rid, reply) => bridge.Resolve(rid, reply);
      }
    }
    assert calls[..|calls|] == calls;
  }

  /** A reply in the inbox stays what it is: its sender is gone, and a fresh id is never asked twice. */
  lemma {:induction false} FirstReplyStays(b: Boxes, calls: seq<Call>, rid: Rid)
    requires rid in b.inbox && rid !in b.pending
    requires forall i :: 0 <= i < |calls| ==> calls[i] != Asks(rid)
    ensures var after := BoxesAfter(b, calls);
      rid in after.inbox && after.inbox[rid] == b.inbox[rid] && rid !in after.pending
  {
    if calls == [] {
    } else {
      FirstReplyStays(b, calls[..|calls| - 1], rid);
    }
  }

  /** Between them, nothing resolves the request or asks for it again. */
  ghost predicate LeavesAlone(calls: seq<Call>, rid: Rid) {
    forall i :: 0 <= i < |calls| ==> calls[i] != Asks(rid) && !(calls[i].Resolves? && calls[i].rid == rid)
  }

  lemma {:induction false} OpenWhileLeftAlone(b: Boxes, calls: seq<Call>, rid: Rid)
    requires rid in b.pending && rid in b.waiting && LeavesAlone(calls, rid)
    ensures rid in BoxesAfter(b, calls).pending && rid in BoxesAfter(b, calls).waiting
  {
    if calls == [] {
    } else {
      OpenWhileLeftAlone(b, calls[..|calls| - 1], rid);
    }
  }

  lemma {:induction false} BoxesAfterBoth(b: Boxes, first: seq<Call>, second: seq<Call>)
    ensures BoxesAfter(b, first + second) == BoxesAfter(BoxesAfter(b, first), second)
  {
    if second == [] {
      assert first + second == first;
    } else {
      var n := |second| - 1;
      assert (first + second)[..|first + second| - 1] == first + second[..n];
      BoxesAfterBoth(b, first, second[..n]);
    }
  }

  /** The reply a request gets is that of the first command for it, whatever came before, between and after. */
  lemma FirstReplyArrives(b: Boxes, before: seq<Call>, between: seq<Call>, after: seq<Call>, rid: Rid, reply: FormReply)
    requires LeavesAlone(between, rid) && forall i :: 0 <= i < |after| ==> after[i] != Asks(rid)
    ensures var calls := before + [Asks(rid)] + between + [Resolves(rid, reply)] + after;
      rid in BoxesAfter(b, calls).inbox && BoxesAfter(b, calls).inbox[rid] == reply
  {
    var b0 := BoxesAfter(b, before);
    var b1, b2 := Asked(b0, rid), BoxesAfter(Asked(b0, rid), between);
    assert [Asks(rid)][..0] == [] && [Resolves(rid, reply)][..0] == [];
    BoxesAfterBoth(b, before, [Asks(rid)]);
    BoxesAfterBoth(b, before + [Asks(rid)], between);
    BoxesAfterBoth(b, before + [Asks(rid)] + between, [Resolves(rid, reply)]);
    BoxesAfterBoth(b, before + [Asks(rid)] + between + [Resolves(rid, reply)], after);
    OpenWhileLeftAlone(b1, between, rid);
    FirstReplyStays(Resolved(b2, rid, reply), after, rid);
  }

  // ---- the page -------------------------------------------------------------------------------------

  /** `request` is what the page loaded; `resolved` is its don't-send-twice flag. */
  datatype Page = Page(request: Option<Rid>, resolved: bool)

  datatype Command =
    | SubmitCommand(page: nat, rid: Rid, text: string, started: bool)
    | CancelCommand(page: nat, request: Option<Rid>)

  /** What a page does with itself, and what it sends. */
  datatype PageStep = PageStep(page: Page, sent: Option<Command>)

  /** Send the text once; nothing happens before a snippet is loaded or after anything was sent. */
  function Submitting(p: Page, page: nat, text: string): PageStep {
    if p.resolved || p.request.None? then PageStep(p, None)
    else PageStep(p.(resolved := true), Some(SubmitCommand(page, p.request.value, text, false)))
  }

  /** Escape, the button, or the window going away. */
  function Cancelling(p: Page, page: nat): PageStep {
    if p.resolved then PageStep(p, None)
    else PageStep(p.(resolved := true), Some(CancelCommand(page, p.request)))
  }

  /** The command could not be delivered: the form may be sent again. */
  function Reopened(p: Page): Page {
    p.(resolved := false)
  }

  class FormPage {
    var requestId: Option<Rid>
    var resolved: bool

    function View(): Page
      reads this
    {
      Page(requestId, resolved)
    }

    constructor ()
      ensures View() == Page(None, false)
    {
      requestId, resolved := None, false;
    }

    method Submit(page: nat, text: string) returns (sent: Option<Command>)
      modifies this
      ensures PageStep(View(), sent) == Submitting(old(View()), page, text)
    {
      if resolved || requestId.None? {
        return None;
      }
      resolved := true;
      return Some(SubmitCommand(page, requestId.value, text, false));
    }

    method SubmitFailed()
      modifies this
      ensures View() == Reopened(old(View()))
    {
      resolved := false;
    }

    method Cancel(page: nat) returns (sent: Option<Command>)
      modifies this
      ensures PageStep(View(), sent) == Cancelling(old(View()), page)
    {
      if resolved {
        return None;
      }
      resolved := true;
      return Some(CancelCommand(page, requestId));
    }
  }

  // ---- one page by itself ------------------------------------------------------------------------------

  datatype Act = Submits(text: string) | Cancels | Fails

  function PageAfter(p: Page, acts: seq<Act>): Page {
    if acts == [] then p
    else
      var q := PageAfter(p, acts[..|acts| - 1]);
      match acts[|acts| - 1]
      case Submits(text) => Submitting(q, 0, text).page
      case Cancels => Cancelling(q, 0).page
      case Fails => Reopened(q)
  }

  /** How many commands left the page. */
  function SentBy(p: Page, acts: seq<Act>): nat {
    if acts == [] then 0
    else
      var q := PageAfter(p, acts[..|acts| - 1]);
      var sent := match acts[|acts| - 1]
        case Submits(text) => Submitting(q, 0, text).sent
        case Cancels => Cancelling(q, 0).sent
        case Fails => None;
      SentBy(p, acts[..|acts| - 1]) + (if sent.Some? then 1 else 0)
  }

  /** A user at the page: presses in any order, and failures in between. */
  method Use(form: FormPage, page: nat, acts: seq<Act>) returns (sent: nat)
    modifies form
    ensures form.View() == PageAfter(old(form.View()), acts) && sent == SentBy(old(form.View()), acts)
  {
    sent := 0;
    for i := 0 to |acts|
      invariant form.View() == PageAfter(old(form.View()), acts[..i]) && sent == SentBy(old(form.View()), acts[..i])
    {
      assert acts[..i + 1][..i] == acts[..i];
      var command := None;
      match acts[i] {
        case Submits(text) => command := form.Submit(page, text);
        case Cancels => command := form.Cancel(page);
        case Fails => form.SubmitFailed();
      }
      sent := sent + (if command.Some? then 1 else 0);
    }
    assert acts[..|acts|] == acts;
  }

  /**
   However its buttons are pressed, a page sends at most one command, and one more for each that could
   not be delivered; its flag says whether one has left since.
   */
  lemma {:induction false} OneCommandPerFailure(p: Page, acts: seq<Act>)
    requires !p.resolved
    ensures SentBy(p, acts) + (if PageAfter(p, acts).resolved then 0 else 1) <= multiset(acts)[Fails] + 1
    ensures multiset(acts)[Fails] == 0 ==> SentBy(p, acts) == if PageAfter(p, acts).resolved then 1 else 0
  {
    if acts == [] {
    } else {
      assert acts == acts[..|acts| - 1] + [acts[|acts| - 1]];
      OneCommandPerFailure(p, acts[..|acts| - 1]);
    }
  }

  // ---- the whole protocol ---------------------------------------------------------------------------

  /**
   `said` records every submission a page made, `used` every request id; both are for the record
   only.
   */
  datatype State = State(
    boxes: Boxes, answers: map<Rid, Answer>, payload: Option<Rid>,
    pages: map<nat, Page>, commands: map<nat, Command>,
    used: set<Rid>, said: set<(Rid, string)>)

  const START := State(Boxes({}, map[], {}), map[], None, map[], map[], {}, {})

  datatype Event =
    | Ask(rid: Rid)
    | OpenPage(page: nat)
    | Load(page: nat)
    | PageSubmits(page: nat, text: string, cmd: nat)
    | PageCancels(page: nat, cmd: nat)
    | Undelivered(cmd: nat)
    | SubmitStarts(cmd: nat)
    | SubmitResolves(cmd: nat)
    | CancelRuns(cmd: nat)
    | Wake(rid: Rid)
    | TimeOut(rid: Rid)
    | Sweep(rid: Rid)

  function Step(s: State, e: Event): State {
    match e
    case Ask(rid) =>
      if rid in s.used then s
      else
        s.(boxes := Asked(s.boxes, rid),
           payload := Some(rid), used := s.used + {rid})
    case OpenPage(page) =>
      if page in s.pages then s else s.(pages := s.pages[page := Page(None, false)])
    case Load(page) =>
      if page !in s.pages || s.pages[page].request.Some? || s.payload.None? then s
      else s.(pages := s.pages[page := s.pages[page].(request := s.payload)], payload := None)
    case PageSubmits(page, text, cmd) =>
      if page !in s.pages || cmd in s.commands then s
      else
        var step := Submitting(s.pages[page], page, text);
        if step.sent.None? then s
        else
          var c := step.sent.value;
          s.(pages := s.pages[page := step.page], commands := s.commands[cmd := c], said := s.said + {(c.rid, text)})
    case PageCancels(page, cmd) =>
      if page !in s.pages || cmd in s.commands then s
      else
        var step := Cancelling(s.pages[page], page);
        if step.sent.None? then s
        else s.(pages := s.pages[page := step.page], commands := s.commands[cmd := step.sent.value])
    case Undelivered(cmd) =>
      if cmd !in s.commands then s
      else
        var c := s.commands[cmd];
        if c.CancelCommand? then s.(commands := s.commands - {cmd})
        else if c.started || c.page !in s.pages then s
        else s.(commands := s.commands - {cmd}, pages := s.pages[c.page := Reopened(s.pages[c.page])])
    case SubmitStarts(cmd) =>
      if cmd in s.commands && s.commands[cmd].SubmitCommand?
      then s.(commands := s.commands[cmd := s.commands[cmd].(started := true)]) else s
    case SubmitResolves(cmd) =>
      if cmd in s.commands && s.commands[cmd].SubmitCommand? && s.commands[cmd].started
      then
        var c := s.commands[cmd];
        s.(boxes := Resolved(s.boxes, c.rid, Submitted(c.text)), commands := s.commands - {cmd})
      else s
    case CancelRuns(cmd) =>
      if cmd in s.commands && s.commands[cmd].CancelCommand? then
        var c := s.commands[cmd];
        s.(boxes := if c.request.Some? then Resolved(s.boxes, c.request.value, Cancelled) else s.boxes,
           commands := s.commands - {cmd})
      else s
    case Wake(rid) =>
      if rid in s.boxes.waiting && rid in s.boxes.inbox
      then s.(boxes := s.boxes.(waiting := s.boxes.waiting - {rid}), answers := s.answers[rid := AnswerOf(s.boxes.inbox[rid])])
      else s
    case TimeOut(rid) =>
      if rid in s.boxes.waiting && rid !in s.boxes.inbox
      then s.(boxes := s.boxes.(waiting := s.boxes.waiting - {rid}), answers := s.answers[rid := Aborted])
      else s
    case Sweep(rid) =>
      if rid in s.answers then s.(boxes := s.boxes.(pending := s.boxes.pending - {rid})) else s
  }

  function Run(s: State, events: seq<Event>): State {
    if events == [] then s else Step(Run(s, events[..|events| - 1]), events[|events| - 1])
  }

  // ---- the invariant -----------------------------------------------------------------------------------

  ghost predicate LoadedOnce(s: State) {
    forall p, q :: p in s.pages && q in s.pages && s.pages[p].request.Some? && s.pages[p].request == s.pages[q].request ==> p == q
  }

  /** Each request is loaded by at most one page, and ids in circulation are used ones. */
  ghost predicate OnePagePerRequest(s: State) {
    && LoadedOnce(s)
    && (forall p :: p in s.pages && s.pages[p].request.Some? ==>
          s.pages[p].request.value in s.used && s.payload != s.pages[p].request)
    && (s.payload.Some? ==> s.payload.value in s.used)
  }

  function RequestOf(c: Command): Option<Rid> {
    match c
    case SubmitCommand(_, rid, _, _) => Some(rid)
    case CancelCommand(_, request) => request
  }

  /** A command under way belongs to a page that has sent it and sent nothing else. */
  ghost predicate OneCommandPerPage(s: State) {
    && (forall c :: c in s.commands ==> SentByPage(s, s.commands[c]))
    && (forall c, d :: c in s.commands && d in s.commands && s.commands[c].page == s.commands[d].page ==> c == d)
  }

  ghost predicate SentByPage(s: State, c: Command) {
    && c.page in s.pages && s.pages[c.page].resolved
    && (RequestOf(c).Some? ==> RequestOf(c) == s.pages[c.page].request)
  }

  /** Until a page's command has run, nothing was delivered for its request and its sender is in place. */
  ghost predicate Undecided(s: State) {
    && (forall p :: p in s.pages && s.pages[p].request.Some? && !s.pages[p].resolved ==> Open(s, s.pages[p].request.value))
    && (forall c :: c in s.commands && RequestOf(s.commands[c]).Some? ==> Open(s, RequestOf(s.commands[c]).value))
    && (s.payload.Some? ==> Open(s, s.payload.value))
  }

  ghost predicate Open(s: State, rid: Rid) {
    && rid in s.used && rid !in s.boxes.inbox
    && (rid in s.boxes.waiting ==> rid in s.boxes.pending)
  }

  ghost predicate Bookkept(s: State) {
    && s.answers.Keys + s.boxes.waiting == s.used
    && s.answers.Keys !! s.boxes.waiting
    && s.boxes.pending <= s.used
    && s.boxes.inbox.Keys <= s.used
  }

  /** Whatever text is on its way or arrived was submitted by the request's own page. */
  ghost predicate Honest(s: State) {
    && (forall r :: r in s.boxes.inbox && s.boxes.inbox[r].Submitted? ==> (r, s.boxes.inbox[r].text) in s.said)
    && (forall r :: r in s.answers && s.answers[r].Filled? ==> (r, s.answers[r].text) in s.said)
    && (forall c :: c in s.commands && s.commands[c].SubmitCommand? ==> (s.commands[c].rid, s.commands[c].text) in s.said)
  }

  ghost predicate Inv(s: State) {
    OnePagePerRequest(s) && OneCommandPerPage(s) && Undecided(s) && Bookkept(s) && Honest(s)
  }

  /** Only loading gives a page its request. */
  lemma RequestsStay(s: State, e: Event, p: nat)
    requires !e.Load? && p in Step(s, e).pages && Step(s, e).pages[p].request.Some?
    ensures p in s.pages && s.pages[p].request == Step(s, e).pages[p].request
  {
  }

  lemma StepLoadsOnce(s: State, e: Event)
    requires Inv(s)
    ensures LoadedOnce(Step(s, e))
  {
    var t := Step(s, e);
    if !e.Load? {
      forall p | p in t.pages && t.pages[p].request.Some? ensures p in s.pages && s.pages[p].request == t.pages[p].request {
        RequestsStay(s, e, p);
      }
    }
  }

  lemma StepKeepsPages(s: State, e: Event)
    requires Inv(s)
    ensures OnePagePerRequest(Step(s, e))
  {
    StepLoadsOnce(s, e);
  }

  /** A command under way was so before, or an open page has just sent it. */
  lemma CommandOrigin(s: State, e: Event, c: nat)
    requires c in Step(s, e).commands
    ensures var after := Step(s, e).commands[c];
      if c in s.commands then after.page == s.commands[c].page && RequestOf(after) == RequestOf(s.commands[c])
      else
        && (e.PageSubmits? || e.PageCancels?) && e.cmd == c && e.page == after.page
        && after.page in s.pages && !s.pages[after.page].resolved && SentByPage(Step(s, e), after)
  {
  }

  /** A page that has sent stays so, unless its own submission could not be delivered. */
  lemma SentStays(s: State, e: Event, p: nat)
    requires p in s.pages && s.pages[p].resolved
    requires e.Undelivered? && e.cmd in s.commands ==> s.commands[e.cmd].page != p
    ensures var t := Step(s, e);
      p in t.pages && t.pages[p].resolved && (s.pages[p].request.Some? ==> t.pages[p].request == s.pages[p].request)
  {
  }

  lemma StepKeepsSender(s: State, e: Event, c: nat)
    requires Inv(s) && c in Step(s, e).commands
    ensures SentByPage(Step(s, e), Step(s, e).commands[c])
  {
    CommandOrigin(s, e, c);
    if c in s.commands {
      assert SentByPage(s, s.commands[c]);
      assert !(e.Undelivered? && e.cmd == c && s.commands[c].CancelCommand?);
      if e.Undelivered? && e.cmd in s.commands && s.commands[e.cmd].page == s.commands[c].page {
        assert e.cmd == c && Step(s, e) == s;
      } else {
        SentStays(s, e, s.commands[c].page);
      }
    }
  }

  lemma StepKeepsCommandsApart(s: State, e: Event, c: nat, d: nat)
    requires Inv(s) && c in Step(s, e).commands && d in Step(s, e).commands
    ensures Step(s, e).commands[c].page == Step(s, e).commands[d].page ==> c == d
  {
    CommandOrigin(s, e, c);
    CommandOrigin(s, e, d);
    assert c in s.commands ==> SentByPage(s, s.commands[c]);
    assert d in s.commands ==> SentByPage(s, s.commands[d]);
  }

  lemma StepKeepsCommands(s: State, e: Event)
    requires Inv(s)
    ensures OneCommandPerPage(Step(s, e))
  {
    var t := Step(s, e);
    forall c | c in t.commands ensures SentByPage(t, t.commands[c]) {
      StepKeepsSender(s, e, c);
    }
    forall c, d | c in t.commands && d in t.commands ensures t.commands[c].page == t.commands[d].page ==> c == d {
      StepKeepsCommandsApart(s, e, c, d);
    }
  }

  /** A step resolves a request only by running a command for it. */
  ghost predicate Decides(s: State, e: Event, rid: Rid) {
    Runs(s, e) && RequestOf(s.commands[e.cmd]) == Some(rid)
  }

  ghost predicate Runs(s: State, e: Event) {
    || (e.SubmitResolves? && e.cmd in s.commands && s.commands[e.cmd].SubmitCommand? && s.commands[e.cmd].started)
    || (e.CancelRuns? && e.cmd in s.commands && s.commands[e.cmd].CancelCommand?)
  }

  lemma OpenStays(s: State, e: Event, rid: Rid)
    requires Inv(s) && Open(s, rid) && !Decides(s, e, rid)
    ensures Open(Step(s, e), rid)
  {
  }

  lemma PagesStayUndecided(s: State, e: Event, p: nat)
    requires Inv(s)
    requires p in Step(s, e).pages && Step(s, e).pages[p].request.Some? && !Step(s, e).pages[p].resolved
    ensures Open(Step(s, e), Step(s, e).pages[p].request.value)
  {
    var rid := Step(s, e).pages[p].request.value;
    assert Open(s, rid);
    assert !Decides(s, e, rid);
    OpenStays(s, e, rid);
  }

  lemma OneCommandPerRequest(s: State, c: nat, d: nat)
    requires Inv(s) && d in s.commands
    ensures c in s.commands && RequestOf(s.commands[c]).Some? && RequestOf(s.commands[c]) == RequestOf(s.commands[d]) ==> c == d
  {
  }

  lemma CommandsStayUndecided(s: State, e: Event, c: nat)
    requires Inv(s)
    requires c in Step(s, e).commands && RequestOf(Step(s, e).commands[c]).Some?
    ensures Open(Step(s, e), RequestOf(Step(s, e).commands[c]).value)
  {
    var rid := RequestOf(Step(s, e).commands[c]).value;
    CommandOrigin(s, e, c);
    assert Open(s, rid);
    if Runs(s, e) {
      OneCommandPerRequest(s, c, e.cmd);
    }
    OpenStays(s, e, rid);
  }

  lemma PayloadStaysUndecided(s: State, e: Event)
    requires Inv(s) && Step(s, e).payload.Some?
    ensures Open(Step(s, e), Step(s, e).payload.value)
  {
    var rid := Step(s, e).payload.value;
    if s.payload == Some(rid) {
      assert Runs(s, e) && RequestOf(s.commands[e.cmd]).Some? ==>
        RequestOf(s.commands[e.cmd]) == s.pages[s.commands[e.cmd].page].request != s.payload;
      OpenStays(s, e, rid);
    }
  }

  lemma StepKeepsUndecided(s: State, e: Event)
    requires Inv(s)
    ensures Undecided(Step(s, e))
  {
    var t := Step(s, e);
    forall p | p in t.pages && t.pages[p].request.Some? && !t.pages[p].resolved ensures Open(t, t.pages[p].request.value) {
      PagesStayUndecided(s, e, p);
    }
    forall c | c in t.commands && RequestOf(t.commands[c]).Some? ensures Open(t, RequestOf(t.commands[c]).value) {
      CommandsStayUndecided(s, e, c);
    }
    if t.payload.Some? {
      PayloadStaysUndecided(s, e);
    }
  }

  lemma StepKeepsBooks(s: State, e: Event)
    requires Inv(s)
    ensures Bookkept(Step(s, e))
  {
  }

  lemma InboxStaysHonest(s: State, e: Event, r: Rid)
    requires Inv(s) && r in Step(s, e).boxes.inbox && Step(s, e).boxes.inbox[r].Submitted?
    ensures (r, Step(s, e).boxes.inbox[r].text) in Step(s, e).said
  {
  }

  lemma AnswersStayHonest(s: State, e: Event, r: Rid)
    requires Inv(s) && r in Step(s, e).answers && Step(s, e).answers[r].Filled?
    ensures (r, Step(s, e).answers[r].text) in Step(s, e).said
  {
  }

  lemma CommandsStayHonest(s: State, e: Event, c: nat)
    requires Inv(s) && c in Step(s, e).commands && Step(s, e).commands[c].SubmitCommand?
    ensures (Step(s, e).commands[c].rid, Step(s, e).commands[c].text) in Step(s, e).said
  {
  }

  lemma StepStaysHonest(s: State, e: Event)
    requires Inv(s)
    ensures Honest(Step(s, e))
  {
    var t := Step(s, e);
    forall r | r in t.boxes.inbox && t.boxes.inbox[r].Submitted? ensures (r, t.boxes.inbox[r].text) in t.said {
      InboxStaysHonest(s, e, r);
    }
    forall r | r in t.answers && t.answers[r].Filled? ensures (r, t.answers[r].text) in t.said {
      AnswersStayHonest(s, e, r);
    }
    forall c | c in t.commands && t.commands[c].SubmitCommand? ensures (t.commands[c].rid, t.commands[c].text) in t.said {
      CommandsStayHonest(s, e, c);
    }
  }

  lemma StepKeepsInv(s: State, e: Event)
    requires Inv(s)
    ensures Inv(Step(s, e))
  {
    StepKeepsPages(s, e);
    StepKeepsCommands(s, e);
    StepKeepsUndecided(s, e);
    StepKeepsBooks(s, e);
    StepStaysHonest(s, e);
  }

  lemma {:induction false} Reachable(events: seq<Event>)
    ensures Inv(Run(START, events))
  {
    if events == [] {
    } else {
      var s, e := Run(START, events[..|events| - 1]), events[|events| - 1];
      Reachable(events[..|events| - 1]);
      StepKeepsInv(s, e);
    }
  }

  // ---- the promises ---------------------------------------------------------------------------------------

  /** An answer, once given, never changes: a request gets at most one. */
  lemma AnswersAreFinal(s: State, e: Event, rid: Rid)
    requires Inv(s) && rid in s.answers
    ensures rid in Step(s, e).answers && Step(s, e).answers[rid] == s.answers[rid]
  {
  }

  /** A request without an answer still waits, and one more step of its own answers it: exactly one comes. */
  lemma AnswerIsAlwaysNear(s: State, rid: Rid)
    requires Inv(s) && rid in s.used
    ensures rid in s.answers || rid in Step(s, Wake(rid)).answers || rid in Step(s, TimeOut(rid)).answers
  {
  }

  /** A new request leaves an older one as it was: its sender in place, and waiting. */
  lemma AskingKeepsOlderRequests(s: State, other: Rid, rid: Rid)
    requires Inv(s) && rid in s.boxes.pending && rid in s.boxes.waiting
    ensures var t := Step(s, Ask(other));
      rid in t.boxes.pending && rid in t.boxes.waiting && (rid in t.answers <==> rid in s.answers)
  {
  }

  /** Text reaches the engine only if the page of that very request submitted it. */
  lemma OnlyOwnPageFills(events: seq<Event>, rid: Rid)
    requires var s := Run(START, events); rid in s.answers && s.answers[rid].Filled?
    ensures var s := Run(START, events); (rid, s.answers[rid].text) in s.said
  {
    Reachable(events);
  }

  /** And what is on record as submitted was submitted by a page that had loaded that request. */
  lemma SaidByOwnPage(s: State, e: Event, rid: Rid, text: string)
    requires (rid, text) in Step(s, e).said && (rid, text) !in s.said
    ensures e.PageSubmits? && e.text == text && e.page in s.pages && s.pages[e.page] == Page(Some(rid), false)
  {
  }

  /** A submission that resolves while its request still waits is what the request will be answered with. */
  lemma ResolvedInTimeIsDelivered(events: seq<Event>, cmd: nat)
    requires var s := Run(START, events);
      cmd in s.commands && s.commands[cmd].SubmitCommand? && s.commands[cmd].started && s.commands[cmd].rid in s.boxes.waiting
    ensures var s := Run(START, events); var c := s.commands[cmd];
      Delivered(Step(s, SubmitResolves(cmd)), c.rid, c.text)
  {
    Reachable(events);
    var s := Run(START, events);
    assert RequestOf(s.commands[cmd]) == Some(s.commands[cmd].rid);
    assert Open(s, s.commands[cmd].rid);
  }

  /** The text is in the request's inbox, or already its answer; no sender can overwrite it. */
  ghost predicate Delivered(s: State, rid: Rid, text: string) {
    rid !in s.boxes.pending
    && (if rid in s.boxes.waiting then rid in s.boxes.inbox && s.boxes.inbox[rid] == Submitted(text)
        else rid in s.answers && s.answers[rid] == Filled(text))
  }

  lemma DeliveredStays(s: State, e: Event, rid: Rid, text: string)
    requires Inv(s) && Delivered(s, rid, text)
    ensures Delivered(Step(s, e), rid, text)
  {
    assert rid in s.used;
  }

  /**
   From then on, in every interleaving, whatever windows close and whatever cancels follow, the
   request's answer is that text and no other.
   */
  lemma {:induction false} SubmitIsNeverTurnedIntoCancel(s: State, events: seq<Event>, rid: Rid, text: string)
    requires Inv(s) && Delivered(s, rid, text)
    ensures Inv(Run(s, events)) && Delivered(Run(s, events), rid, text)
    ensures rid in Run(s, events).answers ==> Run(s, events).answers[rid] == Filled(text)
  {
    if events == [] {
    } else {
      var t, e := Run(s, events[..|events| - 1]), events[|events| - 1];
      SubmitIsNeverTurnedIntoCancel(s, events[..|events| - 1], rid, text);
      StepKeepsInv(t, e);
      DeliveredStays(t, e, rid, text);
    }
    assert Bookkept(Run(s, events));
  }

  // ---- whole exchanges --------------------------------------------------------------------------------------

  lemma RunSnoc(s: State, events: seq<Event>, e: Event)
    ensures Run(s, events + [e]) == Step(Run(s, events), e)
  {
    assert (events + [e])[..|events|] == events;
  }

  /** A request is made, and a new page opens and loads it. */
  function Opening(rid: Rid, page: nat): seq<Event> {
    [Ask(rid)] + [OpenPage(page)] + [Load(page)]
  }

  /** Room for a new exchange: an id nobody used, a page nobody opened, a free command. */
  ghost predicate Room(s: State, rid: Rid, page: nat, cmd: nat) {
    rid !in s.used && page !in s.pages && cmd !in s.commands
  }

  lemma Opened(s: State, rid: Rid, page: nat, cmd: nat)
    requires Inv(s) && Room(s, rid, page, cmd)
    ensures var t := Run(s, Opening(rid, page));
      && page in t.pages && t.pages[page] == Page(Some(rid), false) && cmd !in t.commands
      && rid in t.boxes.pending && rid in t.boxes.waiting && rid !in t.boxes.inbox && rid !in t.answers
  {
    RunSnoc(s, [], Ask(rid));
    RunSnoc(s, [Ask(rid)], OpenPage(page));
    RunSnoc(s, [Ask(rid)] + [OpenPage(page)], Load(page));
    assert [] + [Ask(rid)] == [Ask(rid)];
  }

  /** The page sends, the command starts and resolves, the request wakes. */
  function Filling(rid: Rid, page: nat, text: string, cmd: nat): seq<Event> {
    [PageSubmits(page, text, cmd)] + [SubmitStarts(cmd)] + [SubmitResolves(cmd)] + [Wake(rid)]
  }

  lemma FilledFrom(s: State, rid: Rid, page: nat, text: string, cmd: nat)
    requires page in s.pages && s.pages[page] == Page(Some(rid), false) && cmd !in s.commands
    requires rid in s.boxes.pending && rid in s.boxes.waiting && rid !in s.boxes.inbox
    ensures var t := Run(s, Filling(rid, page, text, cmd)); rid in t.answers && t.answers[rid] == Filled(text)
  {
    RunSnoc(s, [], PageSubmits(page, text, cmd));
    assert [] + [PageSubmits(page, text, cmd)] == [PageSubmits(page, text, cmd)];
    RunSnoc(s, [PageSubmits(page, text, cmd)], SubmitStarts(cmd));
    RunSnoc(s, [PageSubmits(page, text, cmd)] + [SubmitStarts(cmd)], SubmitResolves(cmd));
    RunSnoc(s, [PageSubmits(page, text, cmd)] + [SubmitStarts(cmd)] + [SubmitResolves(cmd)], Wake(rid));
  }

  lemma {:induction false} RunBoth(s: State, first: seq<Event>, second: seq<Event>)
    ensures Run(s, first + second) == Run(Run(s, first), second)
  {
    if second == [] {
      assert first + second == first;
    } else {
      var n := |second| - 1;
      assert (first + second)[..|first + second| - 1] == first + second[..n];
      RunBoth(s, first, second[..n]);
    }
  }

  /** From every reachable state, a form that is asked for, filled in and sent answers with its text. */
  lemma FormIsFilled(events: seq<Event>, rid: Rid, page: nat, text: string, cmd: nat)
    requires Room(Run(START, events), rid, page, cmd)
    ensures var t := Run(START, events + (Opening(rid, page) + Filling(rid, page, text, cmd)));
      rid in t.answers && t.answers[rid] == Filled(text)
  {
    var s := Run(START, events);
    Reachable(events);
    Opened(s, rid, page, cmd);
    FilledFrom(Run(s, Opening(rid, page)), rid, page, text, cmd);
    RunBoth(s, Opening(rid, page), Filling(rid, page, text, cmd));
    RunBoth(START, events, Opening(rid, page) + Filling(rid, page, text, cmd));
  }

  /** A submission that could not be delivered may be sent again, and then answers with the second text. */
  lemma FormIsFilledAgain(events: seq<Event>, rid: Rid, page: nat, lost: string, text: string, cmd: nat)
    requires Room(Run(START, events), rid, page, cmd)
    ensures var again := [PageSubmits(page, lost, cmd)] + [Undelivered(cmd)];
      var t := Run(Run(Run(Run(START, events), Opening(rid, page)), again), Filling(rid, page, text, cmd));
      rid in t.answers && t.answers[rid] == Filled(text)
  {
    var s := Run(START, events);
    Reachable(events);
    Opened(s, rid, page, cmd);
    var t := Run(s, Opening(rid, page));
    RunSnoc(t, [], PageSubmits(page, lost, cmd));
    assert [] + [PageSubmits(page, lost, cmd)] == [PageSubmits(page, lost, cmd)];
    RunSnoc(t, [PageSubmits(page, lost, cmd)], Undelivered(cmd));
    FilledFrom(Run(t, [PageSubmits(page, lost, cmd)] + [Undelivered(cmd)]), rid, page, text, cmd);
  }

  lemma CancelledFrom(s: State, rid: Rid, page: nat, cmd: nat)
    requires page in s.pages && s.pages[page] == Page(Some(rid), false) && cmd !in s.commands
    requires rid in s.boxes.pending && rid in s.boxes.waiting && rid !in s.boxes.inbox
    ensures var t := Run(s, [PageCancels(page, cmd)] + [CancelRuns(cmd)] + [Wake(rid)]);
      rid in t.answers && t.answers[rid] == Aborted
  {
    RunSnoc(s, [], PageCancels(page, cmd));
    assert [] + [PageCancels(page, cmd)] == [PageCancels(page, cmd)];
    RunSnoc(s, [PageCancels(page, cmd)], CancelRuns(cmd));
    RunSnoc(s, [PageCancels(page, cmd)] + [CancelRuns(cmd)], Wake(rid));
  }

  /** A form that is closed instead is answered as cancelled, without waiting for the time to run out. */
  lemma FormIsCancelled(events: seq<Event>, rid: Rid, page: nat, cmd: nat)
    requires Room(Run(START, events), rid, page, cmd)
    ensures var closing := [PageCancels(page, cmd)] + [CancelRuns(cmd)] + [Wake(rid)];
      var t := Run(Run(Run(START, events), Opening(rid, page)), closing);
      rid in t.answers && t.answers[rid] == Aborted
  {
    var s := Run(START, events);
    Reachable(events);
    Opened(s, rid, page, cmd);
    CancelledFrom(Run(s, Opening(rid, page)), rid, page, cmd);
  }

  /** A submission that resolves after the time has run out takes its sender with it and reaches nobody. */
  lemma LateSubmitReachesNobody(events: seq<Event>, cmd: nat)
    requires var s := Run(START, events);
      cmd in s.commands && s.commands[cmd].SubmitCommand? && s.commands[cmd].started && s.commands[cmd].rid !in s.boxes.waiting
    ensures var s := Run(START, events); var t := Step(s, SubmitResolves(cmd));
      && s.commands[cmd].rid !in t.boxes.pending && s.commands[cmd].rid !in t.boxes.inbox
      && t.boxes.inbox == s.boxes.inbox && t.answers == s.answers
  {
    Reachable(events);
    var s := Run(START, events);
    assert RequestOf(s.commands[cmd]) == Some(s.commands[cmd].rid);
    assert Open(s, s.commands[cmd].rid);
  }

  /** Once a request is answered and swept, no sender of it is left: later commands for it reach nobody. */
  lemma SweptIsClosed(events: seq<Event>, rid: Rid, cmd: nat)
    requires rid in Run(START, events).answers
    ensures var t := Step(Run(START, events), Sweep(rid));
      && rid !in t.boxes.pending
      && (cmd in t.commands && RequestOf(t.commands[cmd]) == Some(rid) ==>
            Step(t, SubmitResolves(cmd)).boxes == t.boxes && Step(t, CancelRuns(cmd)).boxes == t.boxes)
  {
  }
}
