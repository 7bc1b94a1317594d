/** What a push does to one team's records: validation, ownership, stamping, merge, acknowledgement. */
module Pushing {
  import opened Wrappers
  import opened Roles
  import opened Storage
  import Text

  const MAX_BATCH := 500
  const MAX_REPLACEMENT := 1024 * 1024
  const MAX_VARIABLES := 16 * 1024
  const MAX_SHORT_STRING := 512

  datatype Batch = Batch(snippets: seq<SnippetRec>, groups: seq<GroupRec>)

  datatype Ack = Ack(snippets: seq<PushOutcome>, groups: seq<PushOutcome>, cursor: nat)

  predicate Short(s: string) {
    s != "" && Text.Utf8Len(s) <= MAX_SHORT_STRING
  }

  /** A shell or script variable would run on every teammate's machine. */
  predicate HasExecVars(v: Option<Variables>) {
    v.Some? && ("shell" in v.value.types || "script" in v.value.types)
  }

  predicate ValidSnippet(team: string, s: SnippetRec) {
    && s.team == team
    && Short(s.id) && Short(s.trigger) && Short(s.format) && Short(s.kind) && Short(s.updatedAt)
    && s.kind != "command" && !HasExecVars(s.variables)
    && Text.Utf8Len(s.replacement) <= MAX_REPLACEMENT
    && (s.variables.Some? ==> s.variables.value.size <= MAX_VARIABLES)
  }

  predicate ValidGroup(team: string, g: GroupRec) {
    g.team == team && Short(g.id) && Short(g.name) && Short(g.updatedAt)
  }

  predicate ValidBatch(team: string, b: Batch) {
    && 1 <= |b.snippets| + |b.groups| <= MAX_BATCH
    && (forall s :: s in b.snippets ==> ValidSnippet(team, s))
    && (forall g :: g in b.groups ==> ValidGroup(team, g))
  }

  /** The server's copy of a snippet. */
  function Held(st: TeamStore, id: string): Option<SnippetRec> {
    match Get(st, SnipKey(id))
    case Some(Snip(s)) => Some(s)
    case _ => None
  }

  /** Everybody may create; editing somebody else's record takes a manager. */
  predicate MayEdit(st: TeamStore, id: string, sub: string, role: Role) {
    Held(st, id).None? || Held(st, id).value.owner == sub || role.AtLeast(Manager)
  }

  /** The author is the first pusher of the id, whatever the client wrote into the record. */
  function Stamp(st: TeamStore, s: SnippetRec, sub: string): SnippetRec {
    match Held(st, s.id)
    case Some(server) => s.(owner := server.owner)
    case None => s.(owner := sub)
  }

  function Kept(st: TeamStore, xs: seq<SnippetRec>, sub: string, role: Role): seq<SnippetRec> {
    if xs == [] then []
    else
      var before, last := Kept(st, xs[..|xs| - 1], sub, role), xs[|xs| - 1];
      if MayEdit(st, last.id, sub, role) then before + [Stamp(st, last, sub)] else before
  }

  function Rejected(st: TeamStore, xs: seq<SnippetRec>, sub: string, role: Role): seq<PushOutcome> {
    if xs == [] then []
    else
      var before, last := Rejected(st, xs[..|xs| - 1], sub, role), xs[|xs| - 1];
      if MayEdit(st, last.id, sub, role) then before
      else before + [Superseded(last.id, Snip(Held(st, last.id).value))]
  }

  function Stripped(gs: seq<GroupRec>): (r: seq<GroupRec>)
    ensures |r| == |gs|
    ensures forall i :: 0 <= i < |gs| ==> r[i].id == gs[i].id && !r[i].restricted
  {
    seq(|gs|, i requires 0 <= i < |gs| => gs[i].(restricted := false))
  }

  function Wrapped(groups: seq<GroupRec>, snips: seq<SnippetRec>): (r: seq<Record>)
    ensures |r| == |groups| + |snips|
    ensures forall i :: 0 <= i < |groups| ==> r[i] == Grp(groups[i])
    ensures forall i :: 0 <= i < |snips| ==> r[|groups| + i] == Snip(snips[i])
  {
    seq(|groups| + |snips|, i requires 0 <= i < |groups| + |snips| =>
      if i < |groups| then Grp(groups[i]) else Snip(snips[i - |groups|]))
  }

  /** Groups first, then the snippets that survived the ownership check. */
  function Arrivals(st: TeamStore, b: Batch, sub: string, role: Role): seq<Record> {
    Wrapped(Stripped(b.groups), Kept(st, b.snippets, sub, role))
  }

  /** The log after the push. */
  function Merged(st: TeamStore, b: Batch, sub: string, role: Role): TeamStore {
    MergeAll(st, Arrivals(st, b, sub, role)).0
  }

  /** The answer to the push: the merge's outcomes, then the refused records. */
  function AckOf(st: TeamStore, b: Batch, sub: string, role: Role): Ack {
    var outs := MergeAll(st, Arrivals(st, b, sub, role)).1;
    var n := if |b.groups| <= |outs| then |b.groups| else |outs|;
    Ack(outs[n..] + Rejected(st, b.snippets, sub, role), outs[..n], Merged(st, b, sub, role).counter)
  }

  // ---- acknowledgements ---------------------------------------------------------------------

  function Ids(outs: seq<PushOutcome>): (r: seq<string>)
    ensures |r| == |outs| && forall i :: 0 <= i < |outs| ==> r[i] == outs[i].id
  {
    seq(|outs|, i requires 0 <= i < |outs| => outs[i].id)
  }

  function SnippetIds(xs: seq<SnippetRec>): (r: seq<string>)
    ensures |r| == |xs| && forall i :: 0 <= i < |xs| ==> r[i] == xs[i].id
  {
    seq(|xs|, i requires 0 <= i < |xs| => xs[i].id)
  }

  function GroupIds(xs: seq<GroupRec>): (r: seq<string>)
    ensures |r| == |xs| && forall i :: 0 <= i < |xs| ==> r[i] == xs[i].id
  {
    seq(|xs|, i requires 0 <= i < |xs| => xs[i].id)
  }

  /** The pushed ids the pusher may edit, and those it may not, each in batch order. */
  function EditableIds(st: TeamStore, xs: seq<SnippetRec>, sub: string, role: Role, editable: bool): seq<string> {
    if xs == [] then []
    else
      var before, last := EditableIds(st, xs[..|xs| - 1], sub, role, editable), xs[|xs| - 1].id;
      if MayEdit(st, last, sub, role) == editable then before + [last] else before
  }

  lemma {:induction false} SplitIds(st: TeamStore, xs: seq<SnippetRec>, sub: string, role: Role)
    ensures SnippetIds(Kept(st, xs, sub, role)) == EditableIds(st, xs, sub, role, true)
    ensures Ids(Rejected(st, xs, sub, role)) == EditableIds(st, xs, sub, role, false)
  {
    if xs == [] {
    } else {
      SplitIds(st, xs[..|xs| - 1], sub, role);
    }
  }

  lemma {:induction false} SplitLosesNothing(st: TeamStore, xs: seq<SnippetRec>, sub: string, role: Role)
    ensures multiset(EditableIds(st, xs, sub, role, true)) + multiset(EditableIds(st, xs, sub, role, false))
         == multiset(SnippetIds(xs))
  {
    if xs == [] {
    } else {
      var n := |xs| - 1;
      SplitLosesNothing(st, xs[..n], sub, role);
      assert SnippetIds(xs) == SnippetIds(xs[..n]) + [xs[n].id];
      var yes, no := EditableIds(st, xs[..n], sub, role, true), EditableIds(st, xs[..n], sub, role, false);
      if MayEdit(st, xs[n].id, sub, role) {
        assert EditableIds(st, xs, sub, role, true) == yes + [xs[n].id];
      } else {
        assert EditableIds(st, xs, sub, role, false) == no + [xs[n].id];
      }
    }
  }

  lemma MergeOneAcks(st: TeamStore, rec: Record)
    ensures MergeOne(st, rec).1.id == rec.Key().id
  {
  }

  lemma {:induction false} MergeAcksInOrder(st: TeamStore, recs: seq<Record>)
    ensures |MergeAll(st, recs).1| == |recs|
    ensures forall i :: 0 <= i < |recs| ==> MergeAll(st, recs).1[i].id == recs[i].Key().id
  {
    if recs == [] {
    } else {
      var n := |recs| - 1;
      MergeAcksInOrder(st, recs[..n]);
      MergeOneAcks(MergeAll(st, recs[..n]).0, recs[n]);
      MergeAllSnoc(st, recs[..n], recs[n]);
      assert recs == recs[..n] + [recs[n]];
    }
  }

  lemma IdsConcat(a: seq<PushOutcome>, b: seq<PushOutcome>)
    ensures Ids(a + b) == Ids(a) + Ids(b)
  {
  }

  /** The outcomes of the merge, cut where the groups end, name the groups and the kept snippets. */
  lemma MergedIds(st: TeamStore, groups: seq<GroupRec>, snips: seq<SnippetRec>)
    ensures var outs := MergeAll(st, Wrapped(groups, snips)).1;
      |outs| == |groups| + |snips| && Ids(outs[..|groups|]) == GroupIds(groups) && Ids(outs[|groups|..]) == SnippetIds(snips)
  {
    MergeAcksInOrder(st, Wrapped(groups, snips));
  }

  /**
   Every pushed id comes back once per occurrence: the editable ones first, in batch order, then
   the refused ones, in batch order; groups in batch order.
   */
  lemma EveryIdAcknowledgedOnce(st: TeamStore, b: Batch, sub: string, role: Role)
    ensures var ack := AckOf(st, b, sub, role);
      && Ids(ack.snippets) == EditableIds(st, b.snippets, sub, role, true) + EditableIds(st, b.snippets, sub, role, false)
      && multiset(Ids(ack.snippets)) == multiset(SnippetIds(b.snippets))
      && Ids(ack.groups) == GroupIds(b.groups)
  {
    var outs := MergeAll(st, Arrivals(st, b, sub, role)).1;
    MergedIds(st, Stripped(b.groups), Kept(st, b.snippets, sub, role));
    SplitIds(st, b.snippets, sub, role);
    SplitLosesNothing(st, b.snippets, sub, role);
    IdsConcat(outs[|b.groups|..], Rejected(st, b.snippets, sub, role));
    assert GroupIds(Stripped(b.groups)) == GroupIds(b.groups);
  }

  // ---- authorship ----------------------------------------------------------------------------

  lemma {:induction false} KeptFromBatch(st: TeamStore, xs: seq<SnippetRec>, sub: string, role: Role, k: SnippetRec)
    requires k in Kept(st, xs, sub, role)
    ensures exists s :: s in xs && MayEdit(st, s.id, sub, role) && k == Stamp(st, s, sub)
  {
    var n := |xs| - 1;
    if k in Kept(st, xs[..n], sub, role) {
      KeptFromBatch(st, xs[..n], sub, role, k);
      var s :| s in xs[..n] && MayEdit(st, s.id, sub, role) && k == Stamp(st, s, sub);
      assert s in xs;
    } else {
      assert xs[n] in xs;
    }
  }

  /** A merge leaves each key with its old record or with one of the arrivals. */
  lemma {:induction false} MergedFromArrivals(st: TeamStore, recs: seq<Record>, key: Key)
    ensures Get(MergeAll(st, recs).0, key) == Get(st, key)
         || exists r :: r in recs && r.Key() == key && Get(MergeAll(st, recs).0, key) == Some(r)
  {
    if recs == [] {
    } else {
      var n := |recs| - 1;
      MergedFromArrivals(st, recs[..n], key);
      var before := MergeAll(st, recs[..n]).0;
      GetAfterMergeOne(before, recs[n], key);
      if Get(before, key) != Get(st, key) {
        var r :| r in recs[..n] && r.Key() == key && Get(before, key) == Some(r);
        assert r in recs;
      }
    }
  }

  lemma {:induction false} MergeNeverForgets(st: TeamStore, recs: seq<Record>, key: Key)
    requires Get(st, key).Some?
    ensures Get(MergeAll(st, recs).0, key).Some?
    ensures var after := Get(MergeAll(st, recs).0, key).value;
      after == Get(st, key).value || Beats(after, Get(st, key).value)
  {
    if recs == [] {
    } else {
      var n := |recs| - 1;
      MergeNeverForgets(st, recs[..n], key);
      var before := MergeAll(st, recs[..n]).0;
      GetAfterMergeOne(before, recs[n], key);
      var was, mid := Get(st, key).value, Get(before, key).value;
      if Beats(recs[n], mid) && mid != was {
        BeatsTransitive(recs[n], mid, was);
      }
    }
  }

  /**
   One push and one snippet id: an existing record keeps its author and changes only for that
   author or a manager, and only to a newer one; a new record is the pusher's. Either way a
   changed record is one of the batch, apart from its author.
   */
  lemma PushAndOneSnippet(st: TeamStore, b: Batch, sub: string, role: Role, id: string)
    ensures var was, now := Held(st, id), Held(Merged(st, b, sub, role), id);
      && (was.Some? ==> now.Some? && now.value.owner == was.value.owner)
      && (was.Some? && now != was ==>
            (was.value.owner == sub || role.AtLeast(Manager)) && Beats(Snip(now.value), Snip(was.value)))
      && (was.None? && now.Some? ==> now.value.owner == sub)
      && (now != was ==> exists s :: s in b.snippets && s.id == id && now == Some(s.(owner := now.value.owner)))
  {
    var recs := Arrivals(st, b, sub, role);
    var after := MergeAll(st, recs).0;
    MergedFromArrivals(st, recs, SnipKey(id));
    if Get(st, SnipKey(id)).Some? {
      MergeNeverForgets(st, recs, SnipKey(id));
      FoundIsSnippet(st, id);
      FoundIsSnippet(after, id);
    }
    if Get(after, SnipKey(id)) != Get(st, SnipKey(id)) {
      var r :| r in recs && r.Key() == SnipKey(id) && Get(after, SnipKey(id)) == Some(r);
      var _ := ArrivedSnippet(st, b, sub, role, r);
    }
  }

  /** A snippet among the arrivals is an editable one of the batch, stamped. */
  lemma ArrivedSnippet(st: TeamStore, b: Batch, sub: string, role: Role, r: Record) returns (s: SnippetRec)
    requires r in Arrivals(st, b, sub, role) && r.Key().SnipKey?
    ensures s in b.snippets && MayEdit(st, s.id, sub, role) && r == Snip(Stamp(st, s, sub))
  {
    var recs, kept := Arrivals(st, b, sub, role), Kept(st, b.snippets, sub, role);
    var i :| 0 <= i < |recs| && recs[i] == r;
    assert i >= |b.groups| && recs[|b.groups| + (i - |b.groups|)] == Snip(kept[i - |b.groups|]);
    KeptFromBatch(st, b.snippets, sub, role, kept[i - |b.groups|]);
    s :| s in b.snippets && MayEdit(st, s.id, sub, role) && r == Snip(Stamp(st, s, sub));
  }

  lemma FoundIsSnippet(st: TeamStore, id: string)
    requires Get(st, SnipKey(id)).Some?
    ensures Held(st, id).Some? && Get(st, SnipKey(id)) == Some(Snip(Held(st, id).value))
  {
    FindSound(st.log, SnipKey(id));
  }

  // ---- what may be in a log ---------------------------------------------------------------------

  /** A record that went through the gate of `push`. */
  predicate Vetted(team: string, rec: Record) {
    match rec
    case Snip(s) => ValidSnippet(team, s)
    case Grp(g) => ValidGroup(team, g) && !g.restricted
  }

  ghost predicate AllVetted(team: string, st: TeamStore) {
    forall r :: r in st.log ==> Vetted(team, r.rec)
  }

  lemma {:induction false} MergeKeepsVetted(team: string, st: TeamStore, recs: seq<Record>)
    requires AllVetted(team, st) && forall r :: r in recs ==> Vetted(team, r)
    ensures AllVetted(team, MergeAll(st, recs).0)
  {
    if recs == [] {
    } else {
      var n := |recs| - 1;
      MergeKeepsVetted(team, st, recs[..n]);
      var before := MergeAll(st, recs[..n]).0;
      forall r | r in MergeOne(before, recs[n]).0.log ensures Vetted(team, r.rec) {
        WithoutMembers(before.log, recs[n].Key(), r);
        assert recs[n] in recs;
      }
    }
  }

  lemma ArrivalsAreVetted(team: string, st: TeamStore, b: Batch, sub: string, role: Role, i: nat)
    requires ValidBatch(team, b) && i < |Arrivals(st, b, sub, role)|
    ensures Vetted(team, Arrivals(st, b, sub, role)[i])
  {
    var recs, kept := Arrivals(st, b, sub, role), Kept(st, b.snippets, sub, role);
    if i < |b.groups| {
      assert b.groups[i] in b.groups && recs[i] == Grp(Stripped(b.groups)[i]);
    } else {
      var k := kept[i - |b.groups|];
      assert recs[|b.groups| + (i - |b.groups|)] == Snip(k);
      KeptFromBatch(st, b.snippets, sub, role, k);
    }
  }

  /** Executable content, foreign teams and client-set flags never reach the log. */
  lemma PushKeepsVetted(team: string, st: TeamStore, b: Batch, sub: string, role: Role)
    requires AllVetted(team, st) && ValidBatch(team, b)
    ensures AllVetted(team, Merged(st, b, sub, role))
  {
    var recs := Arrivals(st, b, sub, role);
    forall i | 0 <= i < |recs| ensures Vetted(team, recs[i]) {
      ArrivalsAreVetted(team, st, b, sub, role, i);
    }
    MergeKeepsVetted(team, st, recs);
  }

  lemma PushKeepsValid(st: TeamStore, b: Batch, sub: string, role: Role)
    requires Valid(st)
    ensures Valid(Merged(st, b, sub, role))
  {
    MergeAllKeepsValid(st, Arrivals(st, b, sub, role));
  }
}
