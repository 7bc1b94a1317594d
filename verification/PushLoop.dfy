/**
 The push loop around several batches: exactly when it ends. Each turn sends the first half-batch of
 dirty snippets and of dirty groups, in the order of the query, and looks at what came back.
 */
module PushLoop {
  import opened Wrappers
  import opened Roles
  import opened Storage
  import opened Pushing
  import opened Devices
  import opened Acknowledging
  import opened Replica
  import SyncLimits
  import Feed

  const HALF := MAX_BATCH / 2

  // ---- the queues by themselves -----------------------------------------------------------------------------

  /** The dirty snippets and the dirty groups, oldest edit first. */
  datatype Queue = Queue(snippets: seq<Key>, groups: seq<Key>)

  function First(xs: seq<Key>): seq<Key> {
    if |xs| > HALF then xs[..HALF] else xs
  }

  function Later(xs: seq<Key>): seq<Key> {
    if |xs| > HALF then xs[HALF..] else []
  }

  /** `sent_all`: nothing is left for another turn. */
  predicate Done(q: Queue) {
    |q.snippets| <= HALF && |q.groups| <= HALF
  }

  ghost function Keep(xs: seq<Key>, hopeless: set<Key>): (kept: seq<Key>)
    ensures |kept| <= |xs|
  {
    if xs == [] then []
    else Keep(xs[..|xs| - 1], hopeless) + (if xs[|xs| - 1] in hopeless then [xs[|xs| - 1]] else [])
  }

  lemma {:induction false} KeepMembers(xs: seq<Key>, hopeless: set<Key>, k: Key)
    ensures k in Keep(xs, hopeless) <==> k in xs && k in hopeless
  {
    if xs == [] {
    } else {
      KeepMembers(xs[..|xs| - 1], hopeless, k);
      assert xs == xs[..|xs| - 1] + [xs[|xs| - 1]];
    }
  }

  /** One turn: of what was sent, only the hopeless is still dirty. */
  ghost function Shrunk(xs: seq<Key>, hopeless: set<Key>): seq<Key> {
    Keep(First(xs), hopeless) + Later(xs)
  }

  /** Fewer hopeless records than a turn takes lie before the last one. */
  ghost predicate Fits(xs: seq<Key>, hopeless: set<Key>) {
    xs != [] ==> |Keep(xs[..|xs| - 1], hopeless)| < HALF
  }

  ghost function TurnOf(q: Queue, hopeless: set<Key>): Queue {
    Queue(Shrunk(q.snippets, hopeless), Shrunk(q.groups, hopeless))
  }

  ghost function NextTurn(hopeless: set<Key>): Queue -> Queue {
    p => if Done(p) then p else TurnOf(p, hopeless)
  }

  function Iterate(step: Queue -> Queue, q: Queue, n: nat): Queue {
    if n == 0 then q else step(Iterate(step, q, n - 1))
  }

  ghost function Turns(q: Queue, hopeless: set<Key>, n: nat): Queue {
    Iterate(NextTurn(hopeless), q, n)
  }

  function Size(q: Queue): nat {
    |q.snippets| + |q.groups|
  }

  lemma {:induction false} KeepConcat(a: seq<Key>, b: seq<Key>, hopeless: set<Key>)
    ensures Keep(a + b, hopeless) == Keep(a, hopeless) + Keep(b, hopeless)
  {
    if b == [] {
      assert a + b == a;
    } else {
      assert (a + b)[..|a + b| - 1] == a + b[..|b| - 1];
      KeepConcat(a, b[..|b| - 1], hopeless);
    }
  }

  lemma {:induction false} KeepAll(xs: seq<Key>, hopeless: set<Key>)
    requires forall k :: k in xs ==> k in hopeless
    ensures Keep(xs, hopeless) == xs
  {
    if xs == [] {
    } else {
      KeepAll(xs[..|xs| - 1], hopeless);
    }
  }

  lemma FrontOf(a: seq<Key>, b: seq<Key>, k: Key)
    ensures var all := a + (b + [k]); all != [] && all[..|all| - 1] == a + b
  {
  }

  lemma ShrunkSplits(xs: seq<Key>, hopeless: set<Key>)
    requires |xs| > HALF
    ensures var rest, last := xs[HALF..|xs| - 1], xs[|xs| - 1];
      Shrunk(xs, hopeless) == Keep(xs[..HALF], hopeless) + (rest + [last]) && xs[..|xs| - 1] == xs[..HALF] + rest
  {
    assert Later(xs) == xs[HALF..|xs| - 1] + [xs[|xs| - 1]];
  }

  lemma KeptTwice(sent: seq<Key>, rest: seq<Key>, hopeless: set<Key>)
    ensures Keep(Keep(sent, hopeless) + rest, hopeless) == Keep(sent + rest, hopeless)
  {
    KeepConcat(sent, rest, hopeless);
    KeepConcat(Keep(sent, hopeless), rest, hopeless);
    forall k | k in Keep(sent, hopeless) ensures k in hopeless {
      KeepMembers(sent, hopeless, k);
    }
    KeepAll(Keep(sent, hopeless), hopeless);
  }

  lemma ShrunkFront(xs: seq<Key>, hopeless: set<Key>)
    requires |xs| > HALF
    ensures var after := Shrunk(xs, hopeless);
      after != [] && Keep(after[..|after| - 1], hopeless) == Keep(xs[..|xs| - 1], hopeless)
  {
    var sent, rest := xs[..HALF], xs[HALF..|xs| - 1];
    ShrunkSplits(xs, hopeless);
    FrontOf(Keep(sent, hopeless), rest, xs[|xs| - 1]);
    KeptTwice(sent, rest, hopeless);
  }

  /** A turn never changes whether a queue fits, and shortens one that is too long exactly if it does. */
  lemma TurnKeepsFit(xs: seq<Key>, hopeless: set<Key>)
    ensures Fits(Shrunk(xs, hopeless), hopeless) <==> Fits(xs, hopeless)
    ensures |Shrunk(xs, hopeless)| <= |xs|
    ensures |xs| > HALF && Fits(xs, hopeless) ==> |Shrunk(xs, hopeless)| < |xs|
    ensures !Fits(xs, hopeless) ==> |xs| > HALF
  {
    if |xs| > HALF {
      ShrunkFront(xs, hopeless);
      var rest := xs[HALF..|xs| - 1];
      assert xs[..|xs| - 1] == xs[..HALF] + rest;
      KeepConcat(xs[..HALF], rest, hopeless);
    }
  }

  ghost predicate BothFit(q: Queue, hopeless: set<Key>) {
    Fits(q.snippets, hopeless) && Fits(q.groups, hopeless)
  }

  lemma TurnKeepsBothFit(q: Queue, hopeless: set<Key>)
    ensures BothFit(TurnOf(q, hopeless), hopeless) <==> BothFit(q, hopeless)
    ensures !BothFit(q, hopeless) ==> !Done(q)
  {
    TurnKeepsFit(q.snippets, hopeless);
    TurnKeepsFit(q.groups, hopeless);
  }

  lemma OneTurnShrinks(p: Queue, hopeless: set<Key>)
    requires BothFit(p, hopeless) && !Done(p)
    ensures Size(TurnOf(p, hopeless)) < Size(p)
  {
    TurnKeepsFit(p.snippets, hopeless);
    TurnKeepsFit(p.groups, hopeless);
  }

  // What follows holds of any steps, so it is said of any.

  lemma {:induction false} Invariant(step: Queue -> Queue, p: Queue -> bool, q: Queue, n: nat)
    requires forall x :: p(step(x)) == p(x)
    ensures p(Iterate(step, q, n)) == p(q)
  {
    if n == 0 {
    } else {
      Invariant(step, p, q, n - 1);
    }
  }

  lemma {:induction false} Shrinks(step: Queue -> Queue, p: Queue -> bool, q: Queue, n: nat)
    requires p(q) && forall x :: p(step(x)) == p(x)
    requires forall x :: p(x) && !Done(x) ==> Size(step(x)) < Size(x)
    requires forall x :: Done(x) ==> step(x) == x
    ensures Done(Iterate(step, q, n)) || Size(Iterate(step, q, n)) + n <= Size(q)
  {
    if n == 0 {
    } else {
      Shrinks(step, p, q, n - 1);
      Invariant(step, p, q, n - 1);
    }
  }

  ghost predicate DoneAfter(q: Queue, hopeless: set<Key>, n: nat) {
    Done(Turns(q, hopeless, n))
  }

  /** Over turns that leave the hopeless records hopeless, the loop ends if and only if both queues fit. */
  lemma QueueEndsIff(q: Queue, hopeless: set<Key>)
    ensures (exists n :: DoneAfter(q, hopeless, n)) <==> BothFit(q, hopeless)
  {
    var step, fit := NextTurn(hopeless), (p: Queue) => BothFit(p, hopeless);
    forall p ensures fit(step(p)) == fit(p) {
      TurnKeepsBothFit(p, hopeless);
    }
    if BothFit(q, hopeless) {
      forall p | fit(p) && !Done(p) ensures Size(step(p)) < Size(p) {
        OneTurnShrinks(p, hopeless);
      }
      Shrinks(step, fit, q, Size(q) + 1);
      assert DoneAfter(q, hopeless, Size(q) + 1);
    } else {
      forall n: nat ensures !DoneAfter(q, hopeless, n) {
        Invariant(step, fit, q, n);
        TurnKeepsBothFit(Turns(q, hopeless, n), hopeless);
      }
    }
  }

  // ---- one turn of the loop -------------------------------------------------------------------------------------

  /** Pushing this record settles nothing: the server refuses it, or has one with its very stamp. */
  ghost predicate Hopeless(st: TeamStore, rec: Record, me: string, role: Role) {
    match rec
    case Snip(s) =>
      && Held(st, s.id).Some? && !Beats(Snip(Held(st, s.id).value), rec)
      && !(MayEdit(st, s.id, me, role) && Beats(rec, Snip(Held(st, s.id).value)))
    case Grp(g) => Get(st, GrpKey(g.id)).Some? && SameStamp(Get(st, GrpKey(g.id)).value, rec)
  }

  ghost predicate Distinct(xs: seq<Key>) {
    forall i, j :: 0 <= i < j < |xs| ==> xs[i] != xs[j]
  }

  /** The queue lists dirty records the server takes, each once. */
  ghost predicate Queued(team: string, d: Device, q: Queue) {
    && Distinct(q.snippets) && Distinct(q.groups)
    && (forall k :: k in q.snippets ==>
          d.Dirty(k) && d.rows[k].Snip? && d.rows[k].Key() == k && ValidSnippet(team, d.rows[k].s))
    && (forall k :: k in q.groups ==>
          d.Dirty(k) && d.rows[k].Grp? && d.rows[k].Key() == k && ValidGroup(team, d.rows[k].g))
  }

  ghost function SnippetsOf(d: Device, xs: seq<Key>): (r: seq<SnippetRec>)
    requires forall k :: k in xs ==> k in d.rows && d.rows[k].Snip?
    ensures |r| == |xs| && forall i :: 0 <= i < |xs| ==> Snip(r[i]) == d.rows[xs[i]]
  {
    seq(|xs|, i requires 0 <= i < |xs| => assert xs[i] in xs; d.rows[xs[i]].s)
  }

  ghost function GroupsOf(d: Device, xs: seq<Key>): (r: seq<GroupRec>)
    requires forall k :: k in xs ==> k in d.rows && d.rows[k].Grp?
    ensures |r| == |xs|
    ensures forall i :: 0 <= i < |xs| ==> d.rows[xs[i]].Grp? && r[i] == d.rows[xs[i]].g.(restricted := false)
  {
    seq(|xs|, i requires 0 <= i < |xs| => assert xs[i] in xs; d.rows[xs[i]].g.(restricted := false))
  }

  lemma FirstOfQueue(xs: seq<Key>)
    ensures First(xs) + Later(xs) == xs
    ensures forall k :: k in First(xs) ==> k in xs
    ensures forall k :: k in Later(xs) ==> k in xs
  {
    assert forall i :: 0 <= i < |First(xs)| ==> First(xs)[i] == xs[i];
    assert |xs| > HALF ==> forall i :: 0 <= i < |Later(xs)| ==> Later(xs)[i] == xs[HALF + i];
  }

  ghost function BatchOf(team: string, d: Device, q: Queue): Batch
    requires Queued(team, d, q)
  {
    FirstOfQueue(q.snippets);
    FirstOfQueue(q.groups);
    Batch(SnippetsOf(d, First(q.snippets)), GroupsOf(d, First(q.groups)))
  }

  lemma BatchIsGood(team: string, d: Device, q: Queue)
    requires Queued(team, d, q) && !Done(q)
    ensures var b := BatchOf(team, d, q);
      Dirt(d, b) && ValidBatch(team, b) && OncePerId(b)
  {
    FirstOfQueue(q.snippets);
    FirstOfQueue(q.groups);
    var b, xs, gs := BatchOf(team, d, q), First(q.snippets), First(q.groups);
    forall i | 0 <= i < |b.snippets|
      ensures b.snippets[i].id == xs[i].id && xs[i].SnipKey? && ValidSnippet(team, b.snippets[i]) && d.rows[xs[i]] == Snip(b.snippets[i])
      ensures xs[i] in xs && d.Dirty(xs[i])
    {
      assert xs[i] in xs && d.rows[xs[i]] == Snip(b.snippets[i]);
    }
    forall i | 0 <= i < |b.groups|
      ensures b.groups[i].id == gs[i].id && gs[i].GrpKey? && ValidGroup(team, b.groups[i])
      ensures gs[i] in gs && d.Dirty(gs[i]) && b.groups[i] == d.rows[gs[i]].g.(restricted := false)
    {
      assert gs[i] in gs;
    }
  }

  // ---- what a turn does on the server --------------------------------------------------------------------------

  /** A snippet that is not in the batch, or hopeless, is held by the server as before. */
  lemma SnippetStays(st: TeamStore, b: Batch, me: string, role: Role, id: string)
    requires forall s :: s in b.snippets && s.id == id ==> Hopeless(st, Snip(s), me, role)
    ensures Held(Merged(st, b, me, role), id) == Held(st, id)
  {
    PushAndOneSnippet(st, b, me, role, id);
  }

  lemma GroupStays(st: TeamStore, b: Batch, me: string, role: Role, id: string)
    requires forall g :: g in b.groups && g.id == id ==> Hopeless(st, Grp(g), me, role)
    ensures Get(Merged(st, b, me, role), GrpKey(id)) == Get(st, GrpKey(id))
  {
    var recs, k := Arrivals(st, b, me, role), GrpKey(id);
    MergedFromArrivals(st, recs, k);
    MovedAll(st, recs, k);
    if Get(Merged(st, b, me, role), k) != Get(st, k) {
      var r :| r in recs && r.Key() == k && Get(Merged(st, b, me, role), k) == Some(r);
      var i :| 0 <= i < |recs| && recs[i] == r;
      assert i < |b.groups| && b.groups[i] in b.groups && r == Grp(b.groups[i].(restricted := false));
      SameStampNeverBeats(r, Get(st, k).value);
    }
  }

  /** Whether pushing a record is hopeless depends on its stamp and on what the server holds of it. */
  lemma HopelessByStamp(st: TeamStore, after: TeamStore, a: Record, b: Record, me: string, role: Role)
    requires a.Key() == b.Key() && SameStamp(a, b)
    requires match a case Snip(s) => Held(after, s.id) == Held(st, s.id) case Grp(g) => Get(after, GrpKey(g.id)) == Get(st, GrpKey(g.id))
    ensures Hopeless(st, a, me, role) <==> Hopeless(after, b, me, role)
  {
  }

  // ---- what its answers do on the device -----------------------------------------------------------------------

  /** The answer leaves the record dirty. */
  ghost predicate Unsettled(sent: Sent) {
    sent.outcome.Superseded? && !Beats(sent.outcome.server, sent.rec)
  }

  lemma SnippetUnsettledIff(st: TeamStore, s: SnippetRec, me: string, role: Role)
    ensures Unsettled(Sent(Snip(s), SnippetAnswer(st, s, me, role))) <==> Hopeless(st, Snip(s), me, role)
  {
    if Held(st, s.id).Some? {
      var held := Snip(Held(st, s.id).value);
      SyncLimits.HeldKey(st, s.id);
      BeatsTotal(Snip(s), held);
    } else {
      SyncLimits.NothingHeld(st, s.id);
    }
  }

  lemma GroupUnsettledIff(st: TeamStore, g: GroupRec, rec: Record, me: string, role: Role)
    requires rec.Grp? && g == rec.g.(restricted := false)
    ensures Unsettled(Sent(rec, MergeOne(st, Grp(g)).1)) <==> Hopeless(st, rec, me, role)
  {
    FindSound(st.log, GrpKey(g.id));
    if Get(st, GrpKey(g.id)).Some? {
      var held := Get(st, GrpKey(g.id)).value;
      BeatsTotal(rec, held);
      if SameStamp(rec, held) {
        SameStampNeverBeats(rec, held);
      }
      if Beats(rec, held) {
        BeatsAsymmetric(rec, held);
      }
    }
  }

  /** Answered: dirty if and only if unsettled, and then as it was; other rows are as they were. */
  lemma AnsweredOne(d: Device, k: Key, sent: Sent, j: Key)
    requires Versioned(d) && d.Dirty(k) && SameStamp(d.rows[k], sent.rec) && sent.rec.Key() == k
    requires sent.outcome.Superseded? ==> sent.outcome.server.Key() == k
    ensures var after := Received(d, k, sent);
      && (after.Dirty(k) <==> Unsettled(sent))
      && (j != k || Unsettled(sent) ==> Alike(d, after, j))
  {
    if sent.outcome.Superseded? {
      AppliedRow(d, FromWire(sent.outcome.server), k);
      AppliedRow(d, FromWire(sent.outcome.server), j);
    }
  }

  /** The same record, unless it is a snippet released from its group. */
  ghost predicate Kin(a: Record, b: Record) {
    match a
    case Snip(s) => b.Snip? && (b == a || b.s == s.(groupId := None))
    case Grp(g) => b == a
  }

  lemma AnsweredKeepsKin(d: Device, k: Key, sent: Sent, j: Key)
    requires Versioned(d) && j in d.rows
    requires j != k || (k in d.rows && Unsettled(sent) && SameStamp(d.rows[k], sent.rec))
    requires sent.outcome.Superseded? ==> sent.outcome.server.Key() == k
    ensures j in Received(d, k, sent).rows && Kin(d.rows[j], Received(d, k, sent).rows[j])
  {
  }

  ghost function Receives(ks: seq<Key>): (es: seq<Event>)
    ensures |es| == |ks| && forall i :: 0 <= i < |ks| ==> es[i] == Receive(ks[i])
  {
    seq(|ks|, i requires 0 <= i < |ks| => Receive(ks[i]))
  }

  /** The answers to these are on their way, about records as they are on the device. */
  ghost predicate Answerable(w: World, k: Key) {
    && k in w.flight && w.device.Dirty(k)
    && w.flight[k].rec.Key() == k && SameStamp(w.device.rows[k], w.flight[k].rec)
    && (w.flight[k].outcome.Superseded? ==> w.flight[k].outcome.server.Key() == k)
  }

  /** What has become of one row once the answers to `ks` are in. */
  ghost predicate Sorted(w: World, t: World, ks: seq<Key>, j: Key) {
    if j in ks && j in w.flight && !Unsettled(w.flight[j]) then !t.device.Dirty(j)
    else Alike(w.device, t.device, j) && (j in w.device.rows ==> Kin(w.device.rows[j], t.device.rows[j]))
  }

  lemma SortedNext(w: World, t: World, pre: seq<Key>, k: Key, j: Key)
    requires Versioned(t.device) && Answerable(w, k) && k !in pre
    requires (forall i :: i in pre ==> i in w.flight) && Sorted(w, t, pre, j) && Sorted(w, t, pre, k)
    ensures Sorted(w, t.(device := Received(t.device, k, w.flight[k])), pre + [k], j)
  {
    var sent := w.flight[k];
    AnsweredOne(t.device, k, sent, j);
    if j in t.device.rows && (j != k || Unsettled(sent)) {
      AnsweredKeepsKin(t.device, k, sent, j);
    }
  }

  /** What is left alone while the answers come in. */
  ghost predicate AnswersOnly(w: World, t: World, ks: seq<Key>) {
    && Versioned(t.device) && t.device.cursor == w.device.cursor
    && t == w.(device := t.device, flight := t.flight)
    && (forall k :: k in t.flight <==> k in w.flight && k !in ks)
    && (forall k :: k in t.flight ==> t.flight[k] == w.flight[k])
  }

  lemma {:induction false} AnswerAll(team: string, w: World, ks: seq<Key>)
    requires Versioned(w.device) && Distinct(ks) && forall k :: k in ks ==> Answerable(w, k)
    ensures AnswersOnly(w, Run(team, w, Receives(ks)), ks)
    ensures forall j :: Sorted(w, Run(team, w, Receives(ks)), ks, j)
  {
    if ks == [] {
    } else {
      var n := |ks| - 1;
      var pre, k := ks[..n], ks[n];
      AnswerAll(team, w, pre);
      var t := Run(team, w, Receives(pre));
      assert ks == pre + [k] && k !in pre;
      assert Receives(ks) == Receives(pre) + [Receive(k)];
      RunSnoc(team, w, Receives(pre), Receive(k));
      assert Answerable(w, k) && Sorted(w, t, pre, k);
      ReceiveStep(team, t, k);
      AnswerOneMore(w, t, pre, k);
    }
  }

  lemma AnswerOneMore(w: World, t: World, pre: seq<Key>, k: Key)
    requires AnswersOnly(w, t, pre) && k !in pre && Answerable(w, k) && forall j :: j in pre ==> j in w.flight
    requires forall j :: Sorted(w, t, pre, j)
    ensures var after := t.(device := Received(t.device, k, w.flight[k]), flight := t.flight - {k});
      AnswersOnly(w, after, pre + [k]) && forall j :: Sorted(w, after, pre + [k], j)
  {
    var after := t.(device := Received(t.device, k, w.flight[k]), flight := t.flight - {k});
    assert Sorted(w, t, pre, k);
    AnsweredVersioned(t.device, k, w.flight[k]);
    forall j ensures Sorted(w, after, pre + [k], j) {
      assert Sorted(w, t, pre, j);
      SortedNext(w, t, pre, k, j);
    }
  }

  lemma AnsweredVersioned(d: Device, k: Key, sent: Sent)
    requires Versioned(d) && k in d.rows && SameStamp(d.rows[k], sent.rec)
    ensures Versioned(Received(d, k, sent)) && Received(d, k, sent).cursor == d.cursor
  {
    if sent.outcome.Superseded? {
      AppliedVersioned(d, FromWire(sent.outcome.server));
    }
  }

  // ---- the loop -----------------------------------------------------------------------------------------------------

  /** A record its user may push: of no closed group, unless the user is a manager. */
  predicate MayWrite(closed: set<string>, role: Role, rec: Record) {
    role.AtLeast(Manager) ||
    match rec
    case Snip(s) => s.groupId.Some? ==> s.groupId.value !in closed
    case Grp(g) => g.id !in closed
  }

  /** Between two turns: the engine is idle, and the queue is what the query found. */
  ghost predicate Ready(team: string, w: World, q: Queue, role: Role) {
    && Inv(team, w) && Idle(w) && Queued(team, w.device, q)
    && forall k :: k in q.snippets || k in q.groups ==> MayWrite(w.closed, role, w.device.rows[k])
  }

  /** What one turn works through: the groups' answers first. */
  ghost function Answers(q: Queue): seq<Key> {
    First(q.groups) + First(q.snippets)
  }

  ghost function Turn(team: string, w: World, q: Queue, me: string, role: Role): World
    requires Queued(team, w.device, q)
  {
    Run(team, Step(team, w, Send(BatchOf(team, w.device, q), me, role)), Receives(Answers(q)))
  }

  lemma AnswersDistinct(team: string, d: Device, q: Queue)
    requires Queued(team, d, q)
    ensures Distinct(Answers(q)) && forall k :: k in Answers(q) <==> k in First(q.snippets) || k in First(q.groups)
  {
    FirstOfQueue(q.snippets);
    FirstOfQueue(q.groups);
    var xs, gs := First(q.snippets), First(q.groups);
    assert forall i :: 0 <= i < |xs| ==> xs[i] in xs && d.rows[xs[i]].Snip?;
    assert forall i :: 0 <= i < |gs| ==> gs[i] in gs && d.rows[gs[i]].Grp?;
    assert forall i :: 0 <= i < |xs| ==> xs[i] == q.snippets[i];
    assert forall i :: 0 <= i < |gs| ==> gs[i] == q.groups[i];
  }

  /** The server takes the batch as a whole. */
  lemma BatchIsTaken(team: string, w: World, q: Queue, role: Role)
    requires Ready(team, w, q, role) && !Done(q)
    ensures Dirt(w.device, BatchOf(team, w.device, q)) && Taken(team, w.closed, role, BatchOf(team, w.device, q))
    ensures OncePerId(BatchOf(team, w.device, q))
  {
    var b, xs, gs := BatchOf(team, w.device, q), First(q.snippets), First(q.groups);
    BatchIsGood(team, w.device, q);
    FirstOfQueue(q.snippets);
    FirstOfQueue(q.groups);
    forall i | 0 <= i < |b.snippets| ensures MayWrite(w.closed, role, Snip(b.snippets[i])) {
      assert xs[i] in xs && w.device.rows[xs[i]] == Snip(b.snippets[i]);
    }
    forall i | 0 <= i < |b.groups| ensures MayWrite(w.closed, role, Grp(b.groups[i])) {
      assert gs[i] in gs && b.groups[i] == w.device.rows[gs[i]].g.(restricted := false);
    }
  }

  lemma BatchSnippet(team: string, d: Device, q: Queue, k: Key) returns (s: SnippetRec)
    requires Queued(team, d, q) && k in First(q.snippets)
    ensures s in BatchOf(team, d, q).snippets && k == SnipKey(s.id) && d.Dirty(k) && d.rows[k] == Snip(s)
  {
    FirstOfQueue(q.snippets);
    var i :| 0 <= i < |First(q.snippets)| && First(q.snippets)[i] == k;
    s := BatchOf(team, d, q).snippets[i];
  }

  lemma BatchGroup(team: string, d: Device, q: Queue, k: Key) returns (g: GroupRec)
    requires Queued(team, d, q) && k in First(q.groups)
    ensures g in BatchOf(team, d, q).groups && k == GrpKey(g.id) && d.Dirty(k)
    ensures d.rows[k].Grp? && g == d.rows[k].g.(restricted := false)
  {
    FirstOfQueue(q.groups);
    var i :| 0 <= i < |First(q.groups)| && First(q.groups)[i] == k;
    g := BatchOf(team, d, q).groups[i];
  }

  lemma SnippetAnswerKey(st: TeamStore, s: SnippetRec, me: string, role: Role)
    ensures var o := SnippetAnswer(st, s, me, role); o.Superseded? ==> o.server.Key() == SnipKey(s.id)
  {
    FindSound(st.log, SnipKey(s.id));
  }

  lemma SnippetIsAnswerable(team: string, w: World, q: Queue, me: string, role: Role, k: Key)
    requires Ready(team, w, q, role) && !Done(q) && k in First(q.snippets)
    ensures var flight := Flight(w.device, BatchOf(team, w.device, q), AckOf(w.server, BatchOf(team, w.device, q), me, role));
      && k in flight && flight[k].rec == w.device.rows[k] && flight[k].rec.Key() == k && w.device.Dirty(k)
      && (flight[k].outcome.Superseded? ==> flight[k].outcome.server.Key() == k)
      && (Unsettled(flight[k]) <==> Hopeless(w.server, w.device.rows[k], me, role))
  {
    var b := BatchOf(team, w.device, q);
    BatchIsTaken(team, w, q, role);
    var s := BatchSnippet(team, w.device, q, k);
    assert k in BatchKeys(b);
    AckForSnippet(w.server, b, me, role, s);
    SnippetUnsettledIff(w.server, s, me, role);
    SnippetAnswerKey(w.server, s, me, role);
  }

  lemma GroupIsAnswerable(team: string, w: World, q: Queue, me: string, role: Role, k: Key)
    requires Ready(team, w, q, role) && !Done(q) && k in First(q.groups)
    ensures var flight := Flight(w.device, BatchOf(team, w.device, q), AckOf(w.server, BatchOf(team, w.device, q), me, role));
      && k in flight && flight[k].rec == w.device.rows[k] && flight[k].rec.Key() == k && w.device.Dirty(k)
      && (flight[k].outcome.Superseded? ==> flight[k].outcome.server.Key() == k)
      && (Unsettled(flight[k]) <==> Hopeless(w.server, w.device.rows[k], me, role))
  {
    var b := BatchOf(team, w.device, q);
    BatchIsTaken(team, w, q, role);
    var g := BatchGroup(team, w.device, q, k);
    assert k in BatchKeys(b);
    AckForGroup(w.server, b, me, role, g);
    GroupUnsettledIff(w.server, g, w.device.rows[k], me, role);
    FindSound(w.server.log, k);
  }

  /** Each record of the batch gets the answer it deserves: unsettled if and only if hopeless. */
  lemma SentIsAnswerable(team: string, w: World, q: Queue, me: string, role: Role, k: Key)
    requires Ready(team, w, q, role) && !Done(q) && k in Answers(q)
    ensures var t := Step(team, w, Send(BatchOf(team, w.device, q), me, role));
      Answerable(t, k) && (Unsettled(t.flight[k]) <==> Hopeless(w.server, w.device.rows[k], me, role))
  {
    BatchIsTaken(team, w, q, role);
    AnswersDistinct(team, w.device, q);
    SendStep(team, w, BatchOf(team, w.device, q), me, role);
    if k in First(q.snippets) {
      SnippetIsAnswerable(team, w, q, me, role, k);
    } else {
      GroupIsAnswerable(team, w, q, me, role, k);
    }
  }

  /** A turn settles what it sends unless that is hopeless, and leaves the rest as it was, here and there. */
  lemma TurnSettles(team: string, w: World, q: Queue, me: string, role: Role, k: Key)
    requires Ready(team, w, q, role) && !Done(q)
    ensures var t := Turn(team, w, q, me, role);
      && Inv(team, t) && Idle(t)
      && (t.device.Dirty(k) <==> w.device.Dirty(k) && (k in Answers(q) ==> Hopeless(w.server, w.device.rows[k], me, role)))
      && (t.device.Dirty(k) ==> Alike(w.device, t.device, k) && Kin(w.device.rows[k], t.device.rows[k]))
      && (k !in Answers(q) ==>
            Alike(w.device, t.device, k) && (k in w.device.rows ==> Kin(w.device.rows[k], t.device.rows[k])))
  {
    var b := BatchOf(team, w.device, q);
    var sent := Step(team, w, Send(b, me, role));
    BatchIsTaken(team, w, q, role);
    SendStep(team, w, b, me, role);
    AnswersDistinct(team, w.device, q);
    StepKeeps(team, w, Send(b, me, role));
    forall j | j in Answers(q)
      ensures Answerable(sent, j) && (Unsettled(sent.flight[j]) <==> Hopeless(w.server, w.device.rows[j], me, role))
    {
      SentIsAnswerable(team, w, q, me, role, j);
    }
    AnswerAll(team, sent, Answers(q));
    RunKeeps(team, sent, Receives(Answers(q)));
    FlightIsAnswered(team, w, q, me, role);
    var t := Turn(team, w, q, me, role);
    assert Sorted(sent, t, Answers(q), k);
    assert t.flight == map[];
  }

  lemma BatchKeysAreAnswers(team: string, d: Device, q: Queue, k: Key)
    requires Queued(team, d, q) && k in BatchKeys(BatchOf(team, d, q))
    ensures k in Answers(q)
  {
    var b := BatchOf(team, d, q);
    FirstOfQueue(q.snippets);
    FirstOfQueue(q.groups);
    match k
    case SnipKey(id) =>
      var i :| 0 <= i < |b.snippets| && b.snippets[i].id == id;
      var j := First(q.snippets)[i];
      assert j in First(q.snippets) && j in q.snippets && Snip(b.snippets[i]) == d.rows[j] && j == k;
    case GrpKey(id) =>
      var i :| 0 <= i < |b.groups| && b.groups[i].id == id;
      var j := First(q.groups)[i];
      assert j in First(q.groups) && j in q.groups && b.groups[i] == d.rows[j].g.(restricted := false) && j == k;
  }

  lemma FlightIsAnswered(team: string, w: World, q: Queue, me: string, role: Role)
    requires Ready(team, w, q, role) && !Done(q)
    ensures forall k :: k in Step(team, w, Send(BatchOf(team, w.device, q), me, role)).flight ==> k in Answers(q)
  {
    var b := BatchOf(team, w.device, q);
    BatchIsTaken(team, w, q, role);
    SendStep(team, w, b, me, role);
    forall k | k in Flight(w.device, b, AckOf(w.server, b, me, role)) ensures k in Answers(q) {
      BatchKeysAreAnswers(team, w.device, q, k);
    }
  }

  /** What the server holds of a record that is not sent, or hopeless, is what it held. */
  lemma QueuedSnippetStays(team: string, w: World, q: Queue, me: string, role: Role, id: string)
    requires Queued(team, w.device, q)
    requires SnipKey(id) in w.device.rows && (SnipKey(id) in Answers(q) ==> Hopeless(w.server, w.device.rows[SnipKey(id)], me, role))
    ensures Held(Merged(w.server, BatchOf(team, w.device, q), me, role), id) == Held(w.server, id)
  {
    var b := BatchOf(team, w.device, q);
    forall s | s in b.snippets && s.id == id ensures Hopeless(w.server, Snip(s), me, role) {
      InBatch(team, w.device, q, SnipKey(id));
      assert SnipKey(id) in BatchKeys(b);
      BatchKeysAreAnswers(team, w.device, q, SnipKey(id));
    }
    SnippetStays(w.server, b, me, role, id);
  }

  lemma QueuedGroupStays(team: string, w: World, q: Queue, me: string, role: Role, id: string)
    requires Queued(team, w.device, q)
    requires GrpKey(id) in w.device.rows && (GrpKey(id) in Answers(q) ==> Hopeless(w.server, w.device.rows[GrpKey(id)], me, role))
    ensures Get(Merged(w.server, BatchOf(team, w.device, q), me, role), GrpKey(id)) == Get(w.server, GrpKey(id))
  {
    var b := BatchOf(team, w.device, q);
    forall g | g in b.groups && g.id == id ensures Hopeless(w.server, Grp(g), me, role) {
      InBatch(team, w.device, q, GrpKey(id));
      assert GrpKey(id) in BatchKeys(b);
      BatchKeysAreAnswers(team, w.device, q, GrpKey(id));
    }
    GroupStays(w.server, b, me, role, id);
  }

  /** What was hopeless and is still dirty is hopeless still, and nothing else has become so. */
  lemma HopelessPersists(team: string, w: World, q: Queue, me: string, role: Role, k: Key)
    requires Ready(team, w, q, role) && !Done(q) && (k in q.snippets || k in q.groups)
    requires Turn(team, w, q, me, role).device.Dirty(k)
    ensures var t := Turn(team, w, q, me, role);
      k in t.device.rows && (Hopeless(t.server, t.device.rows[k], me, role) <==> Hopeless(w.server, w.device.rows[k], me, role))
  {
    var t := Turn(team, w, q, me, role);
    TurnSettles(team, w, q, me, role, k);
    TurnServer(team, w, q, me, role);
    match k {
      case SnipKey(id) => QueuedSnippetStays(team, w, q, me, role, id);
      case GrpKey(id) => QueuedGroupStays(team, w, q, me, role, id);
    }
    HopelessByStamp(w.server, t.server, w.device.rows[k], t.device.rows[k], me, role);
  }

  /** A record of the batch is the device's row of its key. */
  lemma InBatch(team: string, d: Device, q: Queue, k: Key)
    requires Queued(team, d, q)
    ensures var b := BatchOf(team, d, q);
      && (forall s :: s in b.snippets && SnipKey(s.id) == k ==> k in d.rows && d.rows[k] == Snip(s))
      && (forall g :: g in b.groups && GrpKey(g.id) == k ==> k in d.rows && d.rows[k].Grp? && g == d.rows[k].g.(restricted := false))
  {
    var b := BatchOf(team, d, q);
    FirstOfQueue(q.snippets);
    FirstOfQueue(q.groups);
    forall s | s in b.snippets && SnipKey(s.id) == k ensures k in d.rows && d.rows[k] == Snip(s) {
      var i :| 0 <= i < |b.snippets| && b.snippets[i] == s;
      assert First(q.snippets)[i] in First(q.snippets) && Snip(s) == d.rows[First(q.snippets)[i]];
    }
    forall g | g in b.groups && GrpKey(g.id) == k ensures k in d.rows && d.rows[k].Grp? && g == d.rows[k].g.(restricted := false) {
      var i :| 0 <= i < |b.groups| && b.groups[i] == g;
      assert First(q.groups)[i] in First(q.groups) && g == d.rows[First(q.groups)[i]].g.(restricted := false);
    }
  }

  lemma TurnServer(team: string, w: World, q: Queue, me: string, role: Role)
    requires Ready(team, w, q, role) && !Done(q)
    ensures Turn(team, w, q, me, role).server == Merged(w.server, BatchOf(team, w.device, q), me, role)
    ensures Turn(team, w, q, me, role).closed == w.closed
  {
    var b := BatchOf(team, w.device, q);
    BatchIsTaken(team, w, q, role);
    SendStep(team, w, b, me, role);
    AnswersDistinct(team, w.device, q);
    var sent := Step(team, w, Send(b, me, role));
    forall j | j in Answers(q) ensures Answerable(sent, j) {
      SentIsAnswerable(team, w, q, me, role, j);
    }
    AnswerAll(team, sent, Answers(q));
  }

  /** The next query finds what is still dirty, in the same order. */
  ghost function NextQueue(d: Device, q: Queue): Queue {
    Queue(Keep(q.snippets, Dirties(d)), Keep(q.groups, Dirties(d)))
  }

  ghost function HopelessKeys(w: World, q: Queue, me: string, role: Role): set<Key> {
    set k | k in q.snippets + q.groups && k in w.device.rows && Hopeless(w.server, w.device.rows[k], me, role)
  }

  lemma {:induction false} KeepSame(xs: seq<Key>, a: set<Key>, b: set<Key>)
    requires forall k :: k in xs ==> (k in a <==> k in b)
    ensures Keep(xs, a) == Keep(xs, b)
  {
    if xs == [] {
    } else {
      KeepSame(xs[..|xs| - 1], a, b);
    }
  }

  lemma {:induction false} KeepDistinct(xs: seq<Key>, a: set<Key>)
    requires Distinct(xs)
    ensures Distinct(Keep(xs, a))
  {
    if xs == [] {
    } else {
      var n := |xs| - 1;
      var before := Keep(xs[..n], a);
      KeepDistinct(xs[..n], a);
      forall i | 0 <= i < |before| ensures before[i] != xs[n] {
        KeepMembers(xs[..n], a, before[i]);
        assert before[i] in before;
        var j :| 0 <= j < n && xs[..n][j] == before[i];
      }
    }
  }

  /** One queue after a turn: what is still dirty is what a turn with these hopeless records leaves. */
  lemma DirtyIsShrunk(xs: seq<Key>, dirty: set<Key>, hopeless: set<Key>)
    requires forall k :: k in First(xs) ==> (k in dirty <==> k in hopeless)
    requires forall k :: k in Later(xs) ==> k in dirty
    ensures Keep(xs, dirty) == Shrunk(xs, hopeless)
  {
    FirstOfQueue(xs);
    KeepConcat(First(xs), Later(xs), dirty);
    KeepSame(First(xs), dirty, hopeless);
    KeepAll(Later(xs), dirty);
  }

  lemma LaterIsNotFirst(xs: seq<Key>, k: Key)
    requires Distinct(xs) && k in Later(xs)
    ensures k !in First(xs) && k in xs
  {
    var i :| 0 <= i < |Later(xs)| && Later(xs)[i] == k;
    assert xs[HALF + i] == k;
  }

  /** After a turn, which of the queue is dirty: the hopeless of what was sent, and all that was not. */
  lemma TurnDirties(team: string, w: World, q: Queue, me: string, role: Role, k: Key)
    requires Ready(team, w, q, role) && !Done(q) && (k in q.snippets || k in q.groups)
    ensures var dirty, hopeless := Dirties(Turn(team, w, q, me, role).device), HopelessKeys(w, q, me, role);
      && (k in Answers(q) ==> (k in dirty <==> k in hopeless))
      && (k !in Answers(q) ==> k in dirty)
  {
    TurnSettles(team, w, q, me, role, k);
  }

  lemma TurnShrinksQueue(team: string, w: World, q: Queue, me: string, role: Role)
    requires Ready(team, w, q, role) && !Done(q)
    ensures NextQueue(Turn(team, w, q, me, role).device, q) == TurnOf(q, HopelessKeys(w, q, me, role))
  {
    var dirty, hopeless := Dirties(Turn(team, w, q, me, role).device), HopelessKeys(w, q, me, role);
    FirstOfQueue(q.snippets);
    FirstOfQueue(q.groups);
    AnswersDistinct(team, w.device, q);
    forall k | k in q.snippets || k in q.groups
      ensures (k in Answers(q) ==> (k in dirty <==> k in hopeless)) && (k !in Answers(q) ==> k in dirty)
    {
      TurnDirties(team, w, q, me, role, k);
    }
    forall k | k in Later(q.snippets) ensures k !in Answers(q) {
      LaterIsNotFirst(q.snippets, k);
      assert k in q.snippets && w.device.rows[k].Snip?;
    }
    forall k | k in Later(q.groups) ensures k !in Answers(q) {
      LaterIsNotFirst(q.groups, k);
      assert k in q.groups && w.device.rows[k].Grp?;
    }
    DirtyIsShrunk(q.snippets, dirty, hopeless);
    DirtyIsShrunk(q.groups, dirty, hopeless);
  }

  lemma KinMayWrite(closed: set<string>, role: Role, a: Record, b: Record)
    requires Kin(a, b) && MayWrite(closed, role, a)
    ensures MayWrite(closed, role, b)
  {
  }

  /** What is still queued after a turn is as the queue wants it. */
  lemma StillQueued(team: string, w: World, q: Queue, me: string, role: Role, k: Key)
    requires Ready(team, w, q, role) && !Done(q) && (k in q.snippets || k in q.groups)
    requires k in Dirties(Turn(team, w, q, me, role).device)
    ensures var d := Turn(team, w, q, me, role).device;
      && d.Dirty(k) && d.rows[k].Key() == k && MayWrite(w.closed, role, d.rows[k])
      && (k in q.snippets ==> d.rows[k].Snip? && ValidSnippet(team, d.rows[k].s))
      && (k in q.groups ==> d.rows[k].Grp? && ValidGroup(team, d.rows[k].g))
  {
    TurnSettles(team, w, q, me, role, k);
    KinMayWrite(w.closed, role, w.device.rows[k], Turn(team, w, q, me, role).device.rows[k]);
  }

  lemma TurnIsReady(team: string, w: World, q: Queue, me: string, role: Role)
    requires Ready(team, w, q, role) && !Done(q)
    ensures var t := Turn(team, w, q, me, role); Ready(team, t, NextQueue(t.device, q), role)
  {
    var t := Turn(team, w, q, me, role);
    var p, dirty := NextQueue(t.device, q), Dirties(t.device);
    TurnSettles(team, w, q, me, role, SnipKey(""));
    TurnServer(team, w, q, me, role);
    KeepDistinct(q.snippets, dirty);
    KeepDistinct(q.groups, dirty);
    forall k | k in p.snippets
      ensures k in q.snippets && k in dirty
    {
      KeepMembers(q.snippets, dirty, k);
    }
    forall k | k in p.groups
      ensures k in q.groups && k in dirty
    {
      KeepMembers(q.groups, dirty, k);
    }
    forall k | k in p.snippets || k in p.groups
      ensures t.device.Dirty(k) && t.device.rows[k].Key() == k && MayWrite(w.closed, role, t.device.rows[k])
      ensures k in p.snippets ==> t.device.rows[k].Snip? && ValidSnippet(team, t.device.rows[k].s)
      ensures k in p.groups ==> t.device.rows[k].Grp? && ValidGroup(team, t.device.rows[k].g)
    {
      StillQueued(team, w, q, me, role, k);
    }
  }

  /** The loop after `n` turns, the last of which is followed by no other once all was sent. */
  ghost function Loop(team: string, w: World, q: Queue, me: string, role: Role, n: nat): (World, Queue) {
    if n == 0 then (w, q)
    else
      var (v, p) := Loop(team, w, q, me, role, n - 1);
      if Done(p) || !Queued(team, v.device, p) then (v, p)
      else (Turn(team, v, p, me, role), NextQueue(Turn(team, v, p, me, role).device, p))
  }

  /** Which of the queued are hopeless is settled before the first turn. */
  ghost predicate SameHope(w: World, p: Queue, hopeless: set<Key>, me: string, role: Role) {
    forall k :: k in p.snippets || k in p.groups ==>
      k in w.device.rows && (Hopeless(w.server, w.device.rows[k], me, role) <==> k in hopeless)
  }

  lemma HopeIsSettled(team: string, w: World, q: Queue, hopeless: set<Key>, me: string, role: Role)
    requires Ready(team, w, q, role) && !Done(q) && SameHope(w, q, hopeless, me, role)
    ensures var t := Turn(team, w, q, me, role); SameHope(t, NextQueue(t.device, q), hopeless, me, role)
    ensures TurnOf(q, HopelessKeys(w, q, me, role)) == TurnOf(q, hopeless)
  {
    var t := Turn(team, w, q, me, role);
    var p := NextQueue(t.device, q);
    forall k | k in p.snippets || k in p.groups
      ensures k in t.device.rows && (Hopeless(t.server, t.device.rows[k], me, role) <==> k in hopeless)
    {
      KeepMembers(q.snippets, Dirties(t.device), k);
      KeepMembers(q.groups, Dirties(t.device), k);
      HopelessPersists(team, w, q, me, role, k);
    }
    FirstOfQueue(q.snippets);
    FirstOfQueue(q.groups);
    KeepSame(First(q.snippets), HopelessKeys(w, q, me, role), hopeless);
    KeepSame(First(q.groups), HopelessKeys(w, q, me, role), hopeless);
  }

  lemma OneTurn(team: string, w: World, q: Queue, hopeless: set<Key>, me: string, role: Role)
    requires Ready(team, w, q, role) && !Done(q) && SameHope(w, q, hopeless, me, role)
    ensures var t := Turn(team, w, q, me, role);
      && Ready(team, t, NextQueue(t.device, q), role) && SameHope(t, NextQueue(t.device, q), hopeless, me, role)
      && NextQueue(t.device, q) == TurnOf(q, hopeless)
  {
    TurnIsReady(team, w, q, me, role);
    TurnShrinksQueue(team, w, q, me, role);
    HopeIsSettled(team, w, q, hopeless, me, role);
  }

  lemma LoopNext(team: string, w: World, q: Queue, me: string, role: Role, n: nat)
    requires n > 0 && Queued(team, Loop(team, w, q, me, role, n - 1).0.device, Loop(team, w, q, me, role, n - 1).1)
    ensures var at := Loop(team, w, q, me, role, n - 1);
      Loop(team, w, q, me, role, n) ==
        if Done(at.1) then at else (Turn(team, at.0, at.1, me, role), NextQueue(Turn(team, at.0, at.1, me, role).device, at.1))
  {
  }

  lemma TurnsNext(q: Queue, hopeless: set<Key>, n: nat)
    requires n > 0
    ensures var p := Turns(q, hopeless, n - 1);
      Turns(q, hopeless, n) == if Done(p) then p else TurnOf(p, hopeless)
  {
  }

  lemma {:induction false} LoopIsTurns(team: string, w: World, q: Queue, me: string, role: Role, hopeless: set<Key>, n: nat)
    requires Ready(team, w, q, role) && SameHope(w, q, hopeless, me, role)
    ensures var at := Loop(team, w, q, me, role, n);
      Ready(team, at.0, at.1, role) && at.1 == Turns(q, hopeless, n) && SameHope(at.0, at.1, hopeless, me, role)
  {
    if n == 0 {
    } else {
      LoopIsTurns(team, w, q, me, role, hopeless, n - 1);
      var at := Loop(team, w, q, me, role, n - 1);
      LoopNext(team, w, q, me, role, n);
      TurnsNext(q, hopeless, n);
      if !Done(at.1) {
        OneTurn(team, at.0, at.1, hopeless, me, role);
      }
    }
  }

  /** After `n` turns everything was sent. */
  ghost predicate LoopEnds(team: string, w: World, q: Queue, me: string, role: Role, n: nat) {
    Done(Loop(team, w, q, me, role, n).1)
  }

  /**
   Exactly when the push loop ends while nobody else writes: of the dirty snippets, all but the last in
   the query's order, fewer than half a batch are hopeless, and of the dirty groups likewise. Otherwise it
   sends the same hopeless records for ever.
   */
  lemma PushLoopEndsIff(team: string, w: World, q: Queue, me: string, role: Role)
    requires Ready(team, w, q, role)
    ensures (exists n :: LoopEnds(team, w, q, me, role, n)) <==> BothFit(q, HopelessKeys(w, q, me, role))
  {
    var hopeless := HopelessKeys(w, q, me, role);
    QueueEndsIff(q, hopeless);
    forall n: nat ensures LoopEnds(team, w, q, me, role, n) <==> DoneAfter(q, hopeless, n) {
      LoopIsTurns(team, w, q, me, role, hopeless, n);
    }
  }

  /** So with more than half a batch of hopeless snippets it never ends, whatever their order. */
  lemma ManyHopelessNeverEnd(team: string, w: World, q: Queue, me: string, role: Role, n: nat)
    requires Ready(team, w, q, role) && |Keep(q.snippets, HopelessKeys(w, q, me, role))| > 250
    ensures !LoopEnds(team, w, q, me, role, n)
  {
    PushLoopEndsIff(team, w, q, me, role);
    TooManyDoNotFit(q.snippets, HopelessKeys(w, q, me, role));
  }

  lemma TooManyDoNotFit(xs: seq<Key>, hopeless: set<Key>)
    requires |Keep(xs, hopeless)| > HALF
    ensures !Fits(xs, hopeless)
  {
  }

  // ---- a run that gets there --------------------------------------------------------------------------------------

  /** New snippets, each valid and once. */
  ghost predicate NewSnippets(team: string, xs: seq<SnippetRec>) {
    DistinctIds(xs) && forall i :: 0 <= i < |xs| ==> ValidSnippet(team, xs[i]) && xs[i].version == 1
  }

  function RowsOf(xs: seq<SnippetRec>): map<Key, Record> {
    if xs == [] then map[]
    else
      var last := xs[|xs| - 1];
      RowsOf(xs[..|xs| - 1])[SnipKey(last.id) := Snip(last)]
  }

  ghost function Edits(xs: seq<SnippetRec>): (es: seq<Event>)
    ensures |es| == |xs| && forall i :: 0 <= i < |xs| ==> es[i] == Edit(Snip(xs[i]))
  {
    seq(|xs|, i requires 0 <= i < |xs| => Edit(Snip(xs[i])))
  }

  function KeysOf(xs: seq<SnippetRec>): (ks: seq<Key>)
    ensures |ks| == |xs| && forall i :: 0 <= i < |xs| ==> ks[i] == SnipKey(xs[i].id)
  {
    seq(|xs|, i requires 0 <= i < |xs| => SnipKey(xs[i].id))
  }

  lemma {:induction false} RowsOfOnly(xs: seq<SnippetRec>, k: Key)
    ensures k in RowsOf(xs) ==> exists i :: 0 <= i < |xs| && SnipKey(xs[i].id) == k
  {
    if xs == [] {
    } else {
      var n := |xs| - 1;
      RowsOfOnly(xs[..n], k);
      if k in RowsOf(xs[..n]) {
        var i :| 0 <= i < n && SnipKey(xs[..n][i].id) == k;
        assert SnipKey(xs[i].id) == k;
      }
    }
  }

  lemma {:induction false} RowsOfAll(xs: seq<SnippetRec>, i: nat)
    requires DistinctIds(xs) && i < |xs|
    ensures SnipKey(xs[i].id) in RowsOf(xs) && RowsOf(xs)[SnipKey(xs[i].id)] == Snip(xs[i])
  {
    var n := |xs| - 1;
    if i == n {
    } else {
      RowsOfAll(xs[..n], i);
      assert xs[i].id != xs[n].id;
    }
  }

  /** Creating a snippet whose id is new. */
  lemma CreatedNext(rows: map<Key, Record>, s: SnippetRec)
    requires SnipKey(s.id) !in rows && s.version == 1
    ensures Edited(Device(rows, map[], 0), Snip(s)) == Device(rows[SnipKey(s.id) := Snip(s)], map[], 0)
  {
  }

  lemma {:induction false} EditsRun(team: string, w: World, xs: seq<SnippetRec>)
    requires NewSnippets(team, xs) && w.device == Device(map[], map[], 0)
    ensures Run(team, w, Edits(xs)) == w.(device := Device(RowsOf(xs), map[], 0))
  {
    if xs == [] {
    } else {
      var n := |xs| - 1;
      EditsRun(team, w, xs[..n]);
      assert Edits(xs) == Edits(xs[..n]) + [Edit(Snip(xs[n]))];
      RunSnoc(team, w, Edits(xs[..n]), Edit(Snip(xs[n])));
      RowsOfOnly(xs[..n], SnipKey(xs[n].id));
      assert SnipKey(xs[n].id) !in RowsOf(xs[..n]);
      CreatedNext(RowsOf(xs[..n]), xs[n]);
    }
  }

  /** The device that has created these. */
  function Drafted(xs: seq<SnippetRec>): Device {
    Device(RowsOf(xs), map[], 0)
  }

  lemma DraftIsQueued(team: string, xs: seq<SnippetRec>)
    requires NewSnippets(team, xs)
    ensures Queued(team, Drafted(xs), Queue(KeysOf(xs), []))
    ensures forall i :: 0 <= i < |xs| ==> Drafted(xs).Dirty(KeysOf(xs)[i]) && Drafted(xs).rows[KeysOf(xs)[i]] == Snip(xs[i])
  {
    forall i | 0 <= i < |xs| ensures Drafted(xs).Dirty(KeysOf(xs)[i]) && Drafted(xs).rows[KeysOf(xs)[i]] == Snip(xs[i]) {
      RowsOfAll(xs, i);
    }
  }

  /** The first half-batch of them, as the first turn sends it. */
  lemma DraftBatch(team: string, xs: seq<SnippetRec>)
    requires NewSnippets(team, xs) && |xs| > HALF
    ensures var b := Batch(xs[..HALF], []);
      Dirt(Drafted(xs), b) && ValidBatch(team, b) && OncePerId(b)
  {
    DraftIsQueued(team, xs);
    forall s | s in xs[..HALF]
      ensures ValidSnippet(team, s) && Drafted(xs).Dirty(SnipKey(s.id)) && Drafted(xs).rows[SnipKey(s.id)] == Snip(s)
    {
      var i :| 0 <= i < HALF && xs[..HALF][i] == s;
      assert xs[i] == s && KeysOf(xs)[i] == SnipKey(s.id);
    }
  }

  /** An empty server holds each snippet of its first batch with the stamp it came with. */
  lemma FirstBatchLands(b: Batch, me: string, role: Role, s: SnippetRec)
    requires OncePerId(b) && s in b.snippets
    ensures var held := Held(Merged(EMPTY, b, me, role), s.id); held.Some? && SameStamp(Snip(held.value), Snip(s))
  {
    var st := Merged(EMPTY, b, me, role);
    SnippetIsAnswered(EMPTY, b, me, role, s);
    var o := OutcomeOf(AckOf(EMPTY, b, me, role).snippets, s.id).value;
    SnippetAckTells(EMPTY, b, me, role, o);
    var t :| t in b.snippets && t.id == o.id && Told(st, Snip(t), o, EMPTY.counter);
    FindSound(st.log, SnipKey(s.id));
    PushAndOneSnippet(EMPTY, b, me, role, s.id);
    var now := Held(st, s.id);
    assert now.Some?;
    var u :| u in b.snippets && u.id == s.id && now == Some(u.(owner := now.value.owner));
    OneSnippetPerId(b.snippets, s, u);
  }

  lemma LandedIsHopeless(st: TeamStore, s: SnippetRec, me: string, role: Role)
    requires Held(st, s.id).Some? && SameStamp(Snip(Held(st, s.id).value), Snip(s))
    ensures Hopeless(st, Snip(s), me, role)
  {
    SameStampNeverBeats(Snip(Held(st, s.id).value), Snip(s));
  }

  /** Where a queue starts with half a batch of hopeless records and goes on, it does not fit. */
  lemma HopelessFrontDoesNotFit(xs: seq<Key>, hopeless: set<Key>)
    requires |xs| > HALF && forall i :: 0 <= i < HALF ==> xs[i] in hopeless
    ensures !Fits(xs, hopeless)
  {
    var rest := xs[HALF..|xs| - 1];
    assert xs[..|xs| - 1] == xs[..HALF] + rest;
    KeepConcat(xs[..HALF], rest, hopeless);
    KeepAll(xs[..HALF], hopeless);
  }

  /** The device after creating the snippets, sending the first half-batch, and losing the reply. */
  ghost function Wedging(xs: seq<SnippetRec>, me: string, role: Role): seq<Event> {
    Edits(xs) + [Send(Batch(if |xs| > HALF then xs[..HALF] else xs, []), me, role)] + [Fail]
  }

  lemma SendThenFail(team: string, w: World, b: Batch, me: string, role: Role)
    requires Idle(w) && w.skipped == {} && Dirt(w.device, b) && Taken(team, w.closed, role, b)
    ensures Step(team, Step(team, w, Send(b, me, role)), Fail) == w.(server := Merged(w.server, b, me, role))
  {
    SendStep(team, w, b, me, role);
  }

  /** The state that leaves: the server has the first half-batch, the device has all, dirty. */
  ghost function Wedged(xs: seq<SnippetRec>, v: Feed.Viewer, me: string, role: Role): World
    requires |xs| > HALF
  {
    SyncLimits.Joined(Merged(EMPTY, Batch(xs[..HALF], []), me, role), v).(device := Drafted(xs))
  }

  lemma WedgedState(team: string, v: Feed.Viewer, xs: seq<SnippetRec>, me: string, role: Role)
    requires NewSnippets(team, xs) && |xs| > HALF
    ensures Run(team, SyncLimits.Joined(EMPTY, v), Wedging(xs, me, role)) == Wedged(xs, v, me, role)
  {
    var w, b := SyncLimits.Joined(EMPTY, v), Batch(xs[..HALF], []);
    EditsRun(team, w, xs);
    DraftBatch(team, xs);
    RunSnoc(team, w, Edits(xs), Send(b, me, role));
    RunSnoc(team, w, Edits(xs) + [Send(b, me, role)], Fail);
    SendThenFail(team, w.(device := Drafted(xs)), b, me, role);
  }

  lemma WedgedIsReady(team: string, v: Feed.Viewer, xs: seq<SnippetRec>, me: string, role: Role)
    requires NewSnippets(team, xs) && |xs| > HALF
    ensures Ready(team, Wedged(xs, v, me, role), Queue(KeysOf(xs), []), role)
  {
    Reachable(team, SyncLimits.Joined(EMPTY, v), Wedging(xs, me, role));
    WedgedState(team, v, xs, me, role);
    DraftIsQueued(team, xs);
  }

  lemma WedgedIsHopeless(team: string, v: Feed.Viewer, xs: seq<SnippetRec>, me: string, role: Role, i: nat)
    requires NewSnippets(team, xs) && |xs| > HALF && i < HALF
    ensures KeysOf(xs)[i] in HopelessKeys(Wedged(xs, v, me, role), Queue(KeysOf(xs), []), me, role)
  {
    var w, q := Wedged(xs, v, me, role), Queue(KeysOf(xs), []);
    DraftIsQueued(team, xs);
    DraftBatch(team, xs);
    assert xs[..HALF][i] in xs[..HALF] && xs[..HALF][i] == xs[i];
    FirstBatchLands(Batch(xs[..HALF], []), me, role, xs[i]);
    LandedIsHopeless(w.server, xs[i], me, role);
    assert KeysOf(xs)[i] in KeysOf(xs);
  }

  /**
   One lost reply wedges the loop: a new device creates more than half a batch of valid snippets, sends the
   first half-batch, and loses the acknowledgement. From there the loop never ends, though the server has
   refused nothing.
   */
  lemma LostReplyWedgesLoop(team: string, v: Feed.Viewer, xs: seq<SnippetRec>, me: string, role: Role, n: nat)
    requires NewSnippets(team, xs) && |xs| > 250
    ensures var w, q := Run(team, SyncLimits.Joined(EMPTY, v), Wedging(xs, me, role)), Queue(KeysOf(xs), []);
      Ready(team, w, q, role) && !LoopEnds(team, w, q, me, role, n)
  {
    var w, q := Wedged(xs, v, me, role), Queue(KeysOf(xs), []);
    WedgedState(team, v, xs, me, role);
    WedgedIsReady(team, v, xs, me, role);
    forall i | 0 <= i < HALF ensures q.snippets[i] in HopelessKeys(w, q, me, role) {
      WedgedIsHopeless(team, v, xs, me, role, i);
    }
    HopelessFrontDoesNotFit(q.snippets, HopelessKeys(w, q, me, role));
    PushLoopEndsIff(team, w, q, me, role);
  }
}
