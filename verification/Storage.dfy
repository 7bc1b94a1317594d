/**
 One team's records as the SQLite store keeps them: each accepted write takes the next value of
 the team's counter, at most one row exists per record, and the newer `(updated_at, version)`
 wins. `log` lists the rows in sequence order, which is the order the (team, seq) index gives.
 */
module Storage {
  import opened Wrappers
  import Text

  /** The two things the server looks at in the JSON of a snippet's variables. */
  datatype Variables = Variables(types: seq<string>, size: nat)

  datatype SnippetRec = SnippetRec(
    id: string, trigger: string, replacement: string, format: string, kind: string,
    variables: Option<Variables>, groupId: Option<string>, appScope: Option<string>,
    owner: string, team: string, updatedAt: string, version: int, deletedAt: Option<string>)

  datatype GroupRec = GroupRec(
    id: string, name: string, sortOrder: int, team: string, restricted: bool,
    updatedAt: string, version: int, deletedAt: Option<string>)

  datatype Key = SnipKey(id: string) | GrpKey(id: string)

  datatype Record = Snip(s: SnippetRec) | Grp(g: GroupRec) {
    function Key(): Key {
      match this
      case Snip(s) => SnipKey(s.id)
      case Grp(g) => GrpKey(g.id)
    }

    function UpdatedAt(): string {
      match this
      case Snip(s) => s.updatedAt
      case Grp(g) => g.updatedAt
    }

    function Version(): int {
      match this
      case Snip(s) => s.version
      case Grp(g) => g.version
    }
  }

  datatype Row = Row(num: nat, rec: Record)

  datatype TeamStore = TeamStore(counter: nat, log: seq<Row>)

  const EMPTY := TeamStore(0, [])

  datatype PushOutcome = Accepted(id: string) | Superseded(id: string, server: Record)

  /** Last write wins: does `a` beat `b`? Ties lose. */
  predicate Beats(a: Record, b: Record) {
    Text.Less(b.UpdatedAt(), a.UpdatedAt()) || (a.UpdatedAt() == b.UpdatedAt() && a.Version() > b.Version())
  }

  predicate SameStamp(a: Record, b: Record) {
    a.UpdatedAt() == b.UpdatedAt() && a.Version() == b.Version()
  }

  lemma BeatsIrreflexive(a: Record)
    ensures !Beats(a, a)
  {
    Text.LessIrreflexive(a.UpdatedAt());
  }

  lemma BeatsTransitive(a: Record, b: Record, c: Record)
    requires Beats(a, b) && Beats(b, c)
    ensures Beats(a, c)
  {
    if Text.Less(b.UpdatedAt(), a.UpdatedAt()) && Text.Less(c.UpdatedAt(), b.UpdatedAt()) {
      Text.LessTransitive(c.UpdatedAt(), b.UpdatedAt(), a.UpdatedAt());
    }
  }

  lemma BeatsTotal(a: Record, b: Record)
    ensures Beats(a, b) || SameStamp(a, b) || Beats(b, a)
  {
    Text.LessTotal(a.UpdatedAt(), b.UpdatedAt());
  }

  lemma BeatsAsymmetric(a: Record, b: Record)
    requires Beats(a, b)
    ensures !Beats(b, a)
  {
    if Beats(b, a) {
      BeatsTransitive(a, b, a);
      BeatsIrreflexive(a);
    }
  }

  // ---- looking up and writing one row ----------------------------------------------------

  function Find(log: seq<Row>, key: Key): Option<Row> {
    if log == [] then None
    else if log[0].rec.Key() == key then Some(log[0])
    else Find(log[1..], key)
  }

  lemma {:induction false} FindSound(log: seq<Row>, key: Key)
    ensures Find(log, key).Some? ==> Find(log, key).value in log && Find(log, key).value.rec.Key() == key
    ensures Find(log, key).None? ==> forall r :: r in log ==> r.rec.Key() != key
  {
    if log == [] {
    } else {
      FindSound(log[1..], key);
    }
  }

  function Without(log: seq<Row>, key: Key): seq<Row> {
    if log == [] then []
    else (if log[0].rec.Key() == key then [] else [log[0]]) + Without(log[1..], key)
  }

  /** What the store holds for `key`. */
  function Get(st: TeamStore, key: Key): Option<Record> {
    match Find(st.log, key)
    case Some(row) => Some(row.rec)
    case None => None
  }

  function MergeOne(st: TeamStore, rec: Record): (TeamStore, PushOutcome) {
    match Find(st.log, rec.Key())
    case Some(row) =>
      if Beats(rec, row.rec) then Put(st, rec) else (st, Superseded(rec.Key().id, row.rec))
    case None => Put(st, rec)
  }

  function Put(st: TeamStore, rec: Record): (TeamStore, PushOutcome) {
    (TeamStore(st.counter + 1, Without(st.log, rec.Key()) + [Row(st.counter + 1, rec)]), Accepted(rec.Key().id))
  }

  function MergeAll(st: TeamStore, recs: seq<Record>): (TeamStore, seq<PushOutcome>) {
    if recs == [] then (st, [])
    else
      var (before, outs) := MergeAll(st, recs[..|recs| - 1]);
      var (after, out) := MergeOne(before, recs[|recs| - 1]);
      (after, outs + [out])
  }

  // ---- the table's own invariant ----------------------------------------------------------

  ghost predicate Ordered(log: seq<Row>, lo: nat, hi: nat) {
    && (forall i :: 0 <= i < |log| ==> lo < log[i].num <= hi)
    && (forall i, j :: 0 <= i < j < |log| ==> log[i].num < log[j].num)
  }

  ghost predicate OneRowPerKey(log: seq<Row>) {
    forall i, j :: 0 <= i < j < |log| ==> log[i].rec.Key() != log[j].rec.Key()
  }

  ghost predicate Valid(st: TeamStore) {
    Ordered(st.log, 0, st.counter) && OneRowPerKey(st.log)
  }

  lemma {:induction false} WithoutMembers(log: seq<Row>, key: Key, r: Row)
    ensures r in Without(log, key) <==> r in log && r.rec.Key() != key
  {
    if log == [] {
    } else {
      WithoutMembers(log[1..], key, r);
      assert r in log <==> r == log[0] || r in log[1..];
    }
  }

  lemma OrderedCons(row: Row, log: seq<Row>, lo: nat, hi: nat)
    requires lo < row.num <= hi && Ordered(log, row.num, hi)
    ensures Ordered([row] + log, lo, hi)
  {
  }

  lemma OrderedLower(log: seq<Row>, from: nat, lo: nat, hi: nat)
    requires Ordered(log, from, hi) && lo <= from
    ensures Ordered(log, lo, hi)
  {
  }

  lemma {:induction false} WithoutOrdered(log: seq<Row>, key: Key, lo: nat, hi: nat)
    requires Ordered(log, lo, hi)
    ensures Ordered(Without(log, key), lo, hi)
  {
    if log == [] {
    } else {
      var w := Without(log[1..], key);
      WithoutOrdered(log[1..], key, log[0].num, hi);
      if log[0].rec.Key() == key {
        assert Without(log, key) == w;
        OrderedLower(w, log[0].num, lo, hi);
      } else {
        OrderedCons(log[0], w, lo, hi);
      }
    }
  }

  lemma RestHasOtherKeys(log: seq<Row>, r: Row)
    requires OneRowPerKey(log) && log != [] && r in log[1..]
    ensures r.rec.Key() != log[0].rec.Key()
  {
    var j :| 0 <= j < |log| - 1 && log[1..][j] == r;
    assert log[j + 1] == r;
  }

  lemma {:induction false} WithoutOneRowPerKey(log: seq<Row>, key: Key)
    requires OneRowPerKey(log)
    ensures OneRowPerKey(Without(log, key))
  {
    if log == [] {
    } else {
      var rest := log[1..];
      var w := Without(rest, key);
      WithoutOneRowPerKey(rest, key);
      if log[0].rec.Key() == key {
        assert Without(log, key) == w;
      } else {
        forall i | 0 <= i < |w| ensures w[i].rec.Key() != log[0].rec.Key() {
          WithoutMembers(rest, key, w[i]);
          RestHasOtherKeys(log, w[i]);
        }
      }
    }
  }

  lemma PutKeepsValid(st: TeamStore, rec: Record)
    requires Valid(st)
    ensures Valid(Put(st, rec).0)
  {
    var w := Without(st.log, rec.Key());
    WithoutOrdered(st.log, rec.Key(), 0, st.counter);
    WithoutOneRowPerKey(st.log, rec.Key());
    forall i | 0 <= i < |w| ensures w[i].rec.Key() != rec.Key() {
      WithoutMembers(st.log, rec.Key(), w[i]);
    }
  }

  lemma MergeOneKeepsValid(st: TeamStore, rec: Record)
    requires Valid(st)
    ensures Valid(MergeOne(st, rec).0)
  {
    PutKeepsValid(st, rec);
  }

  lemma {:induction false} MergeAllKeepsValid(st: TeamStore, recs: seq<Record>)
    requires Valid(st)
    ensures Valid(MergeAll(st, recs).0)
    ensures |MergeAll(st, recs).1| == |recs|
  {
    if recs == [] {
    } else {
      MergeAllKeepsValid(st, recs[..|recs| - 1]);
      MergeOneKeepsValid(MergeAll(st, recs[..|recs| - 1]).0, recs[|recs| - 1]);
    }
  }

  // ---- what one write does to a lookup -----------------------------------------------------

  lemma {:induction false} FindWithout(log: seq<Row>, key: Key, k: Key)
    ensures Find(Without(log, key), k) == if k == key then None else Find(log, k)
  {
    if log == [] {
    } else {
      FindWithout(log[1..], key, k);
      if log[0].rec.Key() != key {
        assert Without(log, key)[1..] == Without(log[1..], key);
      } else {
        assert Without(log, key) == Without(log[1..], key);
      }
    }
  }

  lemma {:induction false} FindAppend(log: seq<Row>, row: Row, k: Key)
    ensures Find(log + [row], k) ==
      if Find(log, k).Some? then Find(log, k) else if row.rec.Key() == k then Some(row) else None
  {
    if log == [] {
      assert log + [row] == [row];
      assert [row][1..] == [];
    } else {
      assert (log + [row])[1..] == log[1..] + [row];
      FindAppend(log[1..], row, k);
    }
  }

  lemma GetAfterPut(st: TeamStore, rec: Record, k: Key)
    ensures Get(Put(st, rec).0, k) == if k == rec.Key() then Some(rec) else Get(st, k)
  {
    FindWithout(st.log, rec.Key(), k);
    FindAppend(Without(st.log, rec.Key()), Row(st.counter + 1, rec), k);
  }

  /** The merge of one record: the newer of the held and the pushed one stays, nothing else moves. */
  lemma GetAfterMergeOne(st: TeamStore, rec: Record, k: Key)
    ensures Get(MergeOne(st, rec).0, k) ==
      if k == rec.Key() && (Get(st, k).None? || Beats(rec, Get(st, k).value)) then Some(rec) else Get(st, k)
    ensures MergeOne(st, rec).1.id == rec.Key().id
    ensures MergeOne(st, rec).1.Accepted? <==> Get(st, rec.Key()).None? || Beats(rec, Get(st, rec.Key()).value)
    ensures MergeOne(st, rec).1.Superseded? ==> Get(st, rec.Key()) == Some(MergeOne(st, rec).1.server)
  {
    GetAfterPut(st, rec, k);
  }

  // ---- the store against the whole history --------------------------------------------------

  /**
   `h[i]` is the record of `key` that everybody should end up with: it beats every earlier
   arrival and no later one beats it.
   */
  ghost predicate Winner(h: seq<Record>, i: nat, key: Key) {
    && i < |h| && h[i].Key() == key
    && (forall j :: 0 <= j < i && h[j].Key() == key ==> Beats(h[i], h[j]))
    && (forall j :: i < j < |h| && h[j].Key() == key ==> !Beats(h[j], h[i]))
  }

  /** The store's row is the winner of the whole history; it has none only when nothing arrived. */
  lemma {:induction false} StoreHoldsWinner(h: seq<Record>, key: Key)
    returns (i: nat)
    ensures Get(MergeAll(EMPTY, h).0, key).None? ==> forall j :: 0 <= j < |h| ==> h[j].Key() != key
    ensures Get(MergeAll(EMPTY, h).0, key).Some? ==>
      Winner(h, i, key) && Get(MergeAll(EMPTY, h).0, key) == Some(h[i])
  {
    i := 0;
    if h == [] {
    } else {
      var n := |h| - 1;
      var pre, rec := h[..n], h[n];
      i := StoreHoldsWinner(pre, key);
      assert h == pre + [rec];
      MergeAllSnoc(EMPTY, pre, rec);
      GetAfterMergeOne(MergeAll(EMPTY, pre).0, rec, key);
      i := NextWinner(pre, rec, key, Get(MergeAll(EMPTY, pre).0, key), i);
    }
  }

  lemma MergeAllSnoc(st: TeamStore, pre: seq<Record>, rec: Record)
    ensures MergeAll(st, pre + [rec]).0 == MergeOne(MergeAll(st, pre).0, rec).0
    ensures MergeAll(st, pre + [rec]).1 == MergeAll(st, pre).1 + [MergeOne(MergeAll(st, pre).0, rec).1]
  {
    assert (pre + [rec])[..|pre|] == pre;
  }

  lemma NextWinner(pre: seq<Record>, rec: Record, key: Key, held: Option<Record>, i: nat) returns (k: nat)
    requires held.None? ==> forall j :: 0 <= j < |pre| ==> pre[j].Key() != key
    requires held.Some? ==> Winner(pre, i, key) && held == Some(pre[i])
    ensures rec.Key() == key && (held.None? || Beats(rec, held.value)) ==>
      Winner(pre + [rec], k, key) && (pre + [rec])[k] == rec
    ensures !(rec.Key() == key && (held.None? || Beats(rec, held.value))) && held.Some? ==>
      Winner(pre + [rec], k, key) && (pre + [rec])[k] == held.value
  {
    k := if rec.Key() == key && (held.None? || Beats(rec, held.value)) then |pre| else i;
    if rec.Key() == key && held.Some? && Beats(rec, held.value) {
      LaterWinnerBeatsAll(pre, i, key, rec);
    }
  }

  lemma LaterWinnerBeatsAll(h: seq<Record>, i: nat, key: Key, rec: Record)
    requires Winner(h, i, key) && Beats(rec, h[i])
    ensures forall j :: 0 <= j < |h| && h[j].Key() == key ==> Beats(rec, h[j])
  {
    forall j | 0 <= j < |h| && h[j].Key() == key ensures Beats(rec, h[j]) {
      if j < i {
        BeatsTransitive(rec, h[i], h[j]);
      } else if j > i {
        BeatsTotal(h[i], h[j]);
        if Beats(h[i], h[j]) {
          BeatsTransitive(rec, h[i], h[j]);
        }
      }
    }
  }

  /** The same records arrived, in any order and any number of times. */
  ghost predicate SameArrivals(g: seq<Record>, h: seq<Record>) {
    forall r :: r in g <==> r in h
  }

  /** `r` arrived for `key`, and no arrival for `key` beats it. */
  ghost predicate Top(h: seq<Record>, key: Key, r: Record) {
    r in h && r.Key() == key && forall s :: s in h && s.Key() == key ==> !Beats(s, r)
  }

  /** Among the unbeaten arrivals of a key there is one record only. */
  ghost predicate OneTop(h: seq<Record>, key: Key) {
    forall a, b :: Top(h, key, a) && Top(h, key, b) ==> a == b
  }

  lemma WinnerIsTop(h: seq<Record>, i: nat, key: Key)
    requires Winner(h, i, key)
    ensures Top(h, key, h[i])
  {
    forall s | s in h && s.Key() == key ensures !Beats(s, h[i]) {
      var j :| 0 <= j < |h| && h[j] == s;
      if j < i {
        BeatsAsymmetric(h[i], s);
      } else if j == i {
        BeatsIrreflexive(s);
      }
    }
  }

  /** What the store holds is unbeaten, whatever the order. */
  lemma HeldIsTop(h: seq<Record>, key: Key)
    ensures var held := Get(MergeAll(EMPTY, h).0, key);
      if held.Some? then Top(h, key, held.value) else forall r :: r in h ==> r.Key() != key
  {
    var i := StoreHoldsWinner(h, key);
    if Get(MergeAll(EMPTY, h).0, key).Some? {
      WinnerIsTop(h, i, key);
    }
  }

  /** An unbeaten arrival that comes first stays. */
  lemma FirstTopStays(h: seq<Record>, key: Key, r: Record)
    requires Top(h, key, r)
    ensures SameArrivals(h, [r] + h) && Get(MergeAll(EMPTY, [r] + h).0, key) == Some(r)
  {
    var first := [r] + h;
    var i := StoreHoldsWinner(first, key);
    assert first[0] == r && Get(MergeAll(EMPTY, first).0, key).Some?;
  }

  /** Two histories leave the same record for `key`. */
  ghost predicate SameOutcome(g: seq<Record>, h: seq<Record>, key: Key) {
    Get(MergeAll(EMPTY, h).0, key) == Get(MergeAll(EMPTY, g).0, key)
  }

  lemma OneTopMeansOneOutcome(g: seq<Record>, h: seq<Record>, key: Key)
    requires OneTop(g, key) && SameArrivals(g, h)
    ensures SameOutcome(g, h, key)
  {
    HeldIsTop(g, key);
    HeldIsTop(h, key);
    var a, b := Get(MergeAll(EMPTY, g).0, key), Get(MergeAll(EMPTY, h).0, key);
    if a.Some? && b.Some? {
      assert Top(g, key, a.value) && Top(g, key, b.value);
    }
  }

  lemma TwoTopsMeanTwoOutcomes(g: seq<Record>, key: Key)
    requires !OneTop(g, key)
    ensures exists h :: SameArrivals(g, h) && !SameOutcome(g, h, key)
  {
    var a, b :| Top(g, key, a) && Top(g, key, b) && a != b;
    FirstTopStays(g, key, a);
    FirstTopStays(g, key, b);
    assert SameArrivals(g, [a] + g) && SameArrivals(g, [b] + g);
    assert !SameOutcome(g, [a] + g, key) || !SameOutcome(g, [b] + g, key);
  }

  /**
   Exactly when the order of arrival does not matter for a key: if and only if its unbeaten arrivals
   are one and the same record. Then, and only then, every store that received the same records, in
   any order and any number of times, holds the same.
   */
  lemma ArrivalOrderIsIrrelevantIff(g: seq<Record>, key: Key)
    ensures OneTop(g, key) <==> forall h :: SameArrivals(g, h) ==> SameOutcome(g, h, key)
  {
    if OneTop(g, key) {
      forall h | SameArrivals(g, h) ensures SameOutcome(g, h, key) {
        OneTopMeansOneOutcome(g, h, key);
      }
    } else {
      TwoTopsMeanTwoOutcomes(g, key);
    }
  }

  /** In particular it does not where equal stamps mean equal records. */
  lemma DifferentStampsMeanOneTop(g: seq<Record>, key: Key)
    requires forall a, b :: a in g && b in g && a.Key() == b.Key() == key && SameStamp(a, b) ==> a == b
    ensures OneTop(g, key)
  {
    forall a, b | Top(g, key, a) && Top(g, key, b) ensures a == b {
      BeatsTotal(a, b);
    }
  }

  /** The smallest case: two records with equal stamps and different bodies, in two orders. */
  lemma EqualStampsDiverge(a: Record, b: Record)
    requires a.Key() == b.Key() && SameStamp(a, b) && a != b
    ensures Get(MergeAll(EMPTY, [a, b]).0, a.Key()) == Some(a)
    ensures Get(MergeAll(EMPTY, [b, a]).0, a.Key()) == Some(b)
  {
    forall x: Record, y: Record | SameStamp(x, y) && x.Key() == y.Key()
      ensures Get(MergeAll(EMPTY, [x, y]).0, x.Key()) == Some(x)
    {
      assert [x, y][..1] == [x] && [x][..0] == [];
      assert MergeAll(EMPTY, []) == (EMPTY, []);
      GetAfterMergeOne(EMPTY, x, x.Key());
      var one := MergeOne(EMPTY, x).0;
      assert MergeAll(EMPTY, [x]).0 == one;
      GetAfterMergeOne(one, y, x.Key());
      Text.LessIrreflexive(x.UpdatedAt());
    }
  }
}
