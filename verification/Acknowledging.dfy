/** What an acknowledgement says, and how long it stays true while others go on pushing. */
module Acknowledging {
  import opened Wrappers
  import opened Roles
  import opened Storage
  import opened Pushing

  function OutcomeOf(outs: seq<PushOutcome>, id: string): (o: Option<PushOutcome>)
    ensures o.Some? ==> o.value in outs && o.value.id == id
    ensures o.None? ==> forall x :: x in outs ==> x.id != id
  {
    if outs == [] then None else if outs[0].id == id then Some(outs[0]) else OutcomeOf(outs[1..], id)
  }

  /** What the acknowledgement says about one record of the batch. */
  function AckFor(ack: Ack, k: Key): Option<PushOutcome> {
    match k
    case SnipKey(id) => OutcomeOf(ack.snippets, id)
    case GrpKey(id) => OutcomeOf(ack.groups, id)
  }

  // ---- the server's row of one key, over time ---------------------------------------------------------

  /** From `a` to `b` the row of `k` stayed, or gave way to a later and newer one. */
  ghost predicate Moved(a: TeamStore, b: TeamStore, k: Key) {
    var x, y := Find(a.log, k), Find(b.log, k);
    && a.counter <= b.counter
    && (y == x || (y.Some? && a.counter < y.value.num <= b.counter && (x.Some? ==> Beats(y.value.rec, x.value.rec))))
  }

  lemma FindAfterMergeOne(st: TeamStore, rec: Record, k: Key)
    ensures var after := MergeOne(st, rec).0;
      Find(after.log, k) ==
        if k == rec.Key() && (Find(st.log, k).None? || Beats(rec, Find(st.log, k).value.rec))
        then Some(Row(st.counter + 1, rec)) else Find(st.log, k)
  {
    FindWithout(st.log, rec.Key(), k);
    FindAppend(Without(st.log, rec.Key()), Row(st.counter + 1, rec), k);
  }

  lemma MovedOne(st: TeamStore, rec: Record, k: Key)
    ensures Moved(st, MergeOne(st, rec).0, k)
  {
    FindAfterMergeOne(st, rec, k);
  }

  lemma MovedTransitive(a: TeamStore, b: TeamStore, c: TeamStore, k: Key)
    requires Moved(a, b, k) && Moved(b, c, k)
    ensures Moved(a, c, k)
  {
    var x, y, z := Find(a.log, k), Find(b.log, k), Find(c.log, k);
    if x.Some? && y.Some? && z.Some? && Beats(z.value.rec, y.value.rec) && Beats(y.value.rec, x.value.rec) {
      BeatsTransitive(z.value.rec, y.value.rec, x.value.rec);
    }
  }

  lemma {:induction false} MovedAll(st: TeamStore, recs: seq<Record>, k: Key)
    ensures Moved(st, MergeAll(st, recs).0, k)
  {
    if recs == [] {
    } else {
      var n := |recs| - 1;
      var before := MergeAll(st, recs[..n]).0;
      MovedAll(st, recs[..n], k);
      MovedOne(before, recs[n], k);
      MovedTransitive(st, before, MergeAll(st, recs).0, k);
    }
  }

  /** The server's row for `rec`'s key is not older than `rec`. */
  ghost predicate Confirmed(st: TeamStore, rec: Record) {
    var row := Find(st.log, rec.Key());
    row.Some? && !Beats(rec, row.value.rec)
  }

  /** It carries `rec`'s own stamp, or came later than `since`. */
  ghost predicate Current(st: TeamStore, rec: Record, since: nat) {
    var row := Find(st.log, rec.Key());
    Confirmed(st, rec) && (SameStamp(row.value.rec, rec) || row.value.num > since)
  }

  /** An acknowledgement that still holds: accepted means here or overtaken, superseded shows what was here. */
  ghost predicate Told(st: TeamStore, rec: Record, o: PushOutcome, since: nat) {
    match o
    case Accepted(_) => Confirmed(st, rec) && Find(st.log, rec.Key()).value.num > since
    case Superseded(_, server) => server.Key() == rec.Key() && Current(st, server, since)
  }

  lemma ConfirmedStays(a: TeamStore, b: TeamStore, rec: Record)
    requires Confirmed(a, rec) && Moved(a, b, rec.Key())
    ensures Confirmed(b, rec)
  {
    var x, y := Find(a.log, rec.Key()).value.rec, Find(b.log, rec.Key()).value.rec;
    if Beats(rec, y) && Beats(y, x) {
      BeatsTransitive(rec, y, x);
    }
  }

  lemma CurrentStays(a: TeamStore, b: TeamStore, rec: Record, since: nat)
    requires Current(a, rec, since) && Moved(a, b, rec.Key()) && since <= a.counter
    ensures Current(b, rec, since)
  {
    ConfirmedStays(a, b, rec);
  }

  lemma ToldStays(a: TeamStore, b: TeamStore, rec: Record, o: PushOutcome, since: nat)
    requires Told(a, rec, o, since) && Moved(a, b, rec.Key()) && since <= a.counter
    ensures Told(b, rec, o, since)
  {
    match o
    case Accepted(_) => ConfirmedStays(a, b, rec);
    case Superseded(_, server) => CurrentStays(a, b, server, since);
  }

  lemma MergeOneTells(st: TeamStore, rec: Record, since: nat)
    requires since <= st.counter
    ensures Told(MergeOne(st, rec).0, rec, MergeOne(st, rec).1, since)
  {
    FindAfterMergeOne(st, rec, rec.Key());
    FindSound(st.log, rec.Key());
    BeatsIrreflexive(rec);
    if Find(st.log, rec.Key()).Some? {
      BeatsIrreflexive(Find(st.log, rec.Key()).value.rec);
    }
  }

  lemma {:induction false} MergeTells(st: TeamStore, recs: seq<Record>, i: nat)
    requires i < |recs|
    ensures |MergeAll(st, recs).1| == |recs|
    ensures Told(MergeAll(st, recs).0, recs[i], MergeAll(st, recs).1[i], st.counter)
  {
    var n := |recs| - 1;
    var before := MergeAll(st, recs[..n]).0;
    MergeAcksInOrder(st, recs[..n]);
    MovedAll(st, recs[..n], recs[n].Key());
    if i == n {
      MergeOneTells(before, recs[n], st.counter);
    } else {
      MergeTells(st, recs[..n], i);
      MovedOne(before, recs[n], recs[i].Key());
      ToldStays(before, MergeAll(st, recs).0, recs[i], MergeAll(st, recs).1[i], st.counter);
    }
  }

  lemma TellsStamp(st: TeamStore, a: Record, b: Record, o: PushOutcome, since: nat)
    requires Told(st, a, o, since) && a.Key() == b.Key() && SameStamp(a, b)
    ensures Told(st, b, o, since)
  {
  }

  lemma {:induction false} RejectedTells(st: TeamStore, xs: seq<SnippetRec>, sub: string, role: Role, o: PushOutcome)
    requires o in Rejected(st, xs, sub, role)
    ensures o.Superseded? && Get(st, SnipKey(o.id)) == Some(o.server)
    ensures exists s :: s in xs && s.id == o.id
  {
    var n := |xs| - 1;
    if o in Rejected(st, xs[..n], sub, role) {
      RejectedTells(st, xs[..n], sub, role, o);
      var s :| s in xs[..n] && s.id == o.id;
      assert s in xs;
    } else {
      FoundIsSnippet(st, xs[n].id);
      assert xs[n] in xs;
    }
  }

  lemma RejectedAckTells(st: TeamStore, b: Batch, sub: string, role: Role, o: PushOutcome)
    requires o in Rejected(st, b.snippets, sub, role)
    ensures exists s :: s in b.snippets && s.id == o.id && Told(Merged(st, b, sub, role), Snip(s), o, st.counter)
  {
    RejectedTells(st, b.snippets, sub, role, o);
    var s :| s in b.snippets && s.id == o.id;
    FindSound(st.log, SnipKey(o.id));
    BeatsIrreflexive(o.server);
    MovedAll(st, Arrivals(st, b, sub, role), SnipKey(o.id));
    CurrentStays(st, Merged(st, b, sub, role), o.server, st.counter);
    assert Told(Merged(st, b, sub, role), Snip(s), o, st.counter);
  }

  lemma KeptAckTells(st: TeamStore, b: Batch, sub: string, role: Role, i: nat)
    requires |b.groups| <= i < |Arrivals(st, b, sub, role)| == |MergeAll(st, Arrivals(st, b, sub, role)).1|
    ensures var o := MergeAll(st, Arrivals(st, b, sub, role)).1[i];
      exists s :: s in b.snippets && s.id == o.id && Told(Merged(st, b, sub, role), Snip(s), o, st.counter)
  {
    var recs := Arrivals(st, b, sub, role);
    MergeAcksInOrder(st, recs);
    MergeTells(st, recs, i);
    var s := ArrivedSnippet(st, b, sub, role, recs[i]);
    TellsStamp(Merged(st, b, sub, role), recs[i], Snip(s), MergeAll(st, recs).1[i], st.counter);
  }

  /** Every outcome for a snippet is true of one of the pushed records with its id, after the push. */
  lemma SnippetAckTells(st: TeamStore, b: Batch, sub: string, role: Role, o: PushOutcome)
    requires o in AckOf(st, b, sub, role).snippets
    ensures exists s :: s in b.snippets && s.id == o.id && Told(Merged(st, b, sub, role), Snip(s), o, st.counter)
  {
    var recs, n := Arrivals(st, b, sub, role), |b.groups|;
    var outs := MergeAll(st, recs).1;
    MergeAcksInOrder(st, recs);
    if o in outs[n..] {
      var i :| n <= i < |outs| && outs[i] == o;
      KeptAckTells(st, b, sub, role, i);
    } else {
      RejectedAckTells(st, b, sub, role, o);
    }
  }

  lemma GroupAckTells(st: TeamStore, b: Batch, sub: string, role: Role, o: PushOutcome)
    requires o in AckOf(st, b, sub, role).groups
    ensures exists g :: g in b.groups && g.id == o.id && Told(Merged(st, b, sub, role), Grp(g), o, st.counter)
  {
    var recs, n := Arrivals(st, b, sub, role), |b.groups|;
    var outs := MergeAll(st, recs).1;
    MergeAcksInOrder(st, recs);
    var i :| 0 <= i < n && outs[i] == o;
    MergeTells(st, recs, i);
    var g := b.groups[i];
    assert g in b.groups && recs[i] == Grp(Stripped(b.groups)[i]);
    TellsStamp(Merged(st, b, sub, role), recs[i], Grp(g), o, st.counter);
  }

  // ---- what exactly the answer is, record by record -----------------------------------------------------

  ghost predicate OncePerId(b: Batch) {
    && DistinctIds(b.snippets)
    && (forall i, j :: 0 <= i < j < |b.groups| ==> b.groups[i].id != b.groups[j].id)
  }

  ghost predicate OncePerKey(recs: seq<Record>) {
    forall i, j :: 0 <= i < j < |recs| ==> recs[i].Key() != recs[j].Key()
  }

  lemma {:induction false} KeyUntouched(st: TeamStore, recs: seq<Record>, k: Key)
    requires forall i :: 0 <= i < |recs| ==> recs[i].Key() != k
    ensures Find(MergeAll(st, recs).0.log, k) == Find(st.log, k)
  {
    if recs == [] {
    } else {
      var n := |recs| - 1;
      KeyUntouched(st, recs[..n], k);
      FindAfterMergeOne(MergeAll(st, recs[..n]).0, recs[n], k);
    }
  }

  /** A record whose key comes once in the batch is merged as if it were alone. */
  lemma {:induction false} MergedAsAlone(st: TeamStore, recs: seq<Record>, i: nat)
    requires OncePerKey(recs) && i < |recs|
    ensures |MergeAll(st, recs).1| == |recs|
    ensures MergeAll(st, recs).1[i] == MergeOne(st, recs[i]).1
    ensures Get(MergeAll(st, recs).0, recs[i].Key()) == Get(MergeOne(st, recs[i]).0, recs[i].Key())
  {
    var n := |recs| - 1;
    var before := MergeAll(st, recs[..n]).0;
    MergeAcksInOrder(st, recs[..n]);
    FindAfterMergeOne(st, recs[i], recs[i].Key());
    if i == n {
      KeyUntouched(st, recs[..n], recs[n].Key());
      FindAfterMergeOne(before, recs[n], recs[n].Key());
    } else {
      MergedAsAlone(st, recs[..n], i);
      FindAfterMergeOne(before, recs[n], recs[i].Key());
    }
  }

  ghost predicate HasId(xs: seq<SnippetRec>, id: string) {
    exists j :: 0 <= j < |xs| && xs[j].id == id
  }

  ghost predicate DistinctIds(xs: seq<SnippetRec>) {
    forall i, j :: 0 <= i < j < |xs| ==> xs[i].id != xs[j].id
  }

  lemma {:induction false} KeptHaveIds(st: TeamStore, xs: seq<SnippetRec>, sub: string, role: Role, i: nat)
    requires i < |Kept(st, xs, sub, role)|
    ensures HasId(xs, Kept(st, xs, sub, role)[i].id)
  {
    var n := |xs| - 1;
    var before := Kept(st, xs[..n], sub, role);
    if i < |before| {
      KeptHaveIds(st, xs[..n], sub, role, i);
      var j :| 0 <= j < n && xs[..n][j].id == before[i].id;
      assert xs[j].id == before[i].id;
    } else {
      assert xs[n].id == Kept(st, xs, sub, role)[i].id;
    }
  }

  lemma {:induction false} KeptOnce(st: TeamStore, xs: seq<SnippetRec>, sub: string, role: Role)
    requires DistinctIds(xs)
    ensures DistinctIds(Kept(st, xs, sub, role))
  {
    if xs == [] {
    } else {
      var n := |xs| - 1;
      var before := Kept(st, xs[..n], sub, role);
      KeptOnce(st, xs[..n], sub, role);
      forall i | 0 <= i < |before| ensures before[i].id != xs[n].id {
        KeptHaveIds(st, xs[..n], sub, role, i);
        var j :| 0 <= j < n && xs[..n][j].id == before[i].id;
        assert xs[j].id == before[i].id;
      }
    }
  }

  lemma WrappedOnce(groups: seq<GroupRec>, snips: seq<SnippetRec>)
    requires DistinctIds(snips) && forall i, j :: 0 <= i < j < |groups| ==> groups[i].id != groups[j].id
    ensures OncePerKey(Pushing.Wrapped(groups, snips))
  {
    var recs, n := Pushing.Wrapped(groups, snips), |groups|;
    forall i, j | 0 <= i < j < |recs| ensures recs[i].Key() != recs[j].Key() {
      assert j >= n ==> recs[j] == Snip(snips[j - n]);
      assert i >= n ==> recs[i] == Snip(snips[i - n]);
    }
  }

  lemma ArrivalsOnce(st: TeamStore, b: Batch, sub: string, role: Role)
    requires OncePerId(b)
    ensures OncePerKey(Arrivals(st, b, sub, role))
  {
    KeptOnce(st, b.snippets, sub, role);
    WrappedOnce(Stripped(b.groups), Kept(st, b.snippets, sub, role));
  }

  /** The answer to one pushed snippet: refused with the server's copy, or what merging it alone would say. */
  function SnippetAnswer(st: TeamStore, s: SnippetRec, sub: string, role: Role): PushOutcome {
    if MayEdit(st, s.id, sub, role) then MergeOne(st, Snip(Stamp(st, s, sub))).1
    else Superseded(s.id, Snip(Held(st, s.id).value))
  }

  lemma {:induction false} RejectedAnswers(st: TeamStore, xs: seq<SnippetRec>, sub: string, role: Role, o: PushOutcome)
    requires o in Rejected(st, xs, sub, role)
    ensures exists s :: s in xs && s.id == o.id && o == SnippetAnswer(st, s, sub, role)
  {
    var n := |xs| - 1;
    if o in Rejected(st, xs[..n], sub, role) {
      RejectedAnswers(st, xs[..n], sub, role, o);
      var s :| s in xs[..n] && s.id == o.id && o == SnippetAnswer(st, s, sub, role);
      assert s in xs;
    } else {
      assert xs[n] in xs;
    }
  }

  lemma KeptAnswers(st: TeamStore, b: Batch, sub: string, role: Role, i: nat)
    requires OncePerId(b) && |b.groups| <= i < |Arrivals(st, b, sub, role)|
    ensures |MergeAll(st, Arrivals(st, b, sub, role)).1| == |Arrivals(st, b, sub, role)|
    ensures var o := MergeAll(st, Arrivals(st, b, sub, role)).1[i];
      exists s :: s in b.snippets && s.id == o.id && o == SnippetAnswer(st, s, sub, role)
  {
    var recs := Arrivals(st, b, sub, role);
    ArrivalsOnce(st, b, sub, role);
    MergeAcksInOrder(st, recs);
    MergedAsAlone(st, recs, i);
    var s := ArrivedSnippet(st, b, sub, role, recs[i]);
  }

  lemma SnippetAnswers(st: TeamStore, b: Batch, sub: string, role: Role, o: PushOutcome)
    requires OncePerId(b) && o in AckOf(st, b, sub, role).snippets
    ensures exists s :: s in b.snippets && s.id == o.id && o == SnippetAnswer(st, s, sub, role)
  {
    var recs, n := Arrivals(st, b, sub, role), |b.groups|;
    var outs := MergeAll(st, recs).1;
    MergeAcksInOrder(st, recs);
    if o in outs[n..] {
      var i :| n <= i < |outs| && outs[i] == o;
      KeptAnswers(st, b, sub, role, i);
    } else {
      RejectedAnswers(st, b.snippets, sub, role, o);
    }
  }

  /** The acknowledgement has an outcome for each snippet of the batch. */
  lemma SnippetIsAnswered(st: TeamStore, b: Batch, sub: string, role: Role, s: SnippetRec)
    requires s in b.snippets
    ensures OutcomeOf(AckOf(st, b, sub, role).snippets, s.id).Some?
  {
    var outs := AckOf(st, b, sub, role).snippets;
    EveryIdAcknowledgedOnce(st, b, sub, role);
    var k :| 0 <= k < |b.snippets| && b.snippets[k] == s;
    assert SnippetIds(b.snippets)[k] in multiset(SnippetIds(b.snippets));
    assert s.id in multiset(Ids(outs));
    var i :| 0 <= i < |outs| && Ids(outs)[i] == s.id;
    assert outs[i] in outs && outs[i].id == s.id;
  }

  /** In a batch without repeats, the acknowledgement has exactly this answer for each of its snippets. */
  lemma AckForSnippet(st: TeamStore, b: Batch, sub: string, role: Role, s: SnippetRec)
    requires OncePerId(b) && s in b.snippets
    ensures AckFor(AckOf(st, b, sub, role), SnipKey(s.id)) == Some(SnippetAnswer(st, s, sub, role))
  {
    SnippetIsAnswered(st, b, sub, role, s);
    var o := OutcomeOf(AckOf(st, b, sub, role).snippets, s.id).value;
    SnippetAnswers(st, b, sub, role, o);
    var t :| t in b.snippets && t.id == o.id && o == SnippetAnswer(st, t, sub, role);
    OneSnippetPerId(b.snippets, s, t);
  }

  lemma OneSnippetPerId(xs: seq<SnippetRec>, s: SnippetRec, t: SnippetRec)
    requires DistinctIds(xs) && s in xs && t in xs && s.id == t.id
    ensures s == t
  {
    var i, j :| 0 <= i < |xs| && xs[i] == s && 0 <= j < |xs| && xs[j] == t;
    assert i == j;
  }

  lemma GroupAnswers(st: TeamStore, b: Batch, sub: string, role: Role, k: nat)
    requires OncePerId(b) && k < |b.groups|
    ensures |AckOf(st, b, sub, role).groups| == |b.groups|
    ensures AckOf(st, b, sub, role).groups[k] == MergeOne(st, Grp(b.groups[k].(restricted := false))).1
    ensures AckOf(st, b, sub, role).groups[k].id == b.groups[k].id
  {
    var recs := Arrivals(st, b, sub, role);
    ArrivalsOnce(st, b, sub, role);
    MergeAcksInOrder(st, recs);
    MergedAsAlone(st, recs, k);
    assert recs[k] == Grp(Stripped(b.groups)[k]) == Grp(b.groups[k].(restricted := false));
  }

  /** And for each of its groups, which nobody owns, the one of merging it alone. */
  lemma AckForGroup(st: TeamStore, b: Batch, sub: string, role: Role, g: GroupRec)
    requires OncePerId(b) && g in b.groups
    ensures AckFor(AckOf(st, b, sub, role), GrpKey(g.id)) == Some(MergeOne(st, Grp(g.(restricted := false))).1)
  {
    var outs := AckOf(st, b, sub, role).groups;
    var k :| 0 <= k < |b.groups| && b.groups[k] == g;
    GroupAnswers(st, b, sub, role, k);
    assert outs[k] in outs && outs[k].id == g.id;
    var o := OutcomeOf(outs, g.id).value;
    var i :| 0 <= i < |outs| && outs[i] == o;
    GroupAnswers(st, b, sub, role, i);
    assert b.groups[i].id == b.groups[k].id && i == k;
  }
}
