/**
 What the stamps clients send are worth. The server checks their length only; last write wins means
 last in time as long as they are proper timestamps, and for good if one of them is not.
 */
module Stamps {
  import opened Wrappers
  import opened Roles
  import opened State
  import opened Api
  import Storage
  import Pushing
  import Authorship
  import Text
  import Timestamps

  ghost predicate Proper(u: string) {
    exists t: Timestamps.Instant :: t.Valid() && u == Timestamps.Format(t)
  }

  /** Later, to the server, than any time there is. */
  ghost predicate BeyondTime(u: string) {
    forall t: Timestamps.Instant :: t.Valid() ==> Text.Less(Timestamps.Format(t), u)
  }

  lemma SameTextIffSameTime(t: Timestamps.Instant, u: Timestamps.Instant)
    requires t.Valid() && u.Valid()
    ensures Timestamps.Format(t) == Timestamps.Format(u) <==> Timestamps.Millis(t) == Timestamps.Millis(u)
  {
    Timestamps.FormatOrder(t, u);
    Timestamps.FormatOrder(u, t);
    Text.LessTotal(Timestamps.Format(t), Timestamps.Format(u));
    Text.LessIrreflexive(Timestamps.Format(t));
  }

  /** With proper stamps the winner is the one written later, and of two written at one instant the higher version. */
  lemma ProperStampsAreChronological(a: Storage.Record, b: Storage.Record, t: Timestamps.Instant, u: Timestamps.Instant)
    requires t.Valid() && a.UpdatedAt() == Timestamps.Format(t) && u.Valid() && b.UpdatedAt() == Timestamps.Format(u)
    ensures Storage.Beats(a, b) <==>
      Timestamps.Millis(t) > Timestamps.Millis(u) || (Timestamps.Millis(t) == Timestamps.Millis(u) && a.Version() > b.Version())
  {
    Timestamps.FormatOrder(u, t);
    SameTextIffSameTime(t, u);
  }

  /** A year is written in digits, so anything that starts behind them is beyond time. */
  lemma BeyondDigits(u: string)
    requires u != "" && u[0] > '9'
    ensures BeyondTime(u)
  {
    forall t: Timestamps.Instant | t.Valid() ensures Text.Less(Timestamps.Format(t), u) {
      assert Timestamps.Format(t)[0] == Timestamps.Digit(t.year / 100 / 10);
    }
  }

  /** The server takes such a stamp as it takes any other. */
  lemma BeyondTimeIsAccepted(team: string, s: Storage.SnippetRec)
    requires Pushing.ValidSnippet(team, s)
    ensures BeyondTime("~") && Pushing.ValidSnippet(team, s.(updatedAt := "~"))
  {
    BeyondDigits("~");
    assert Text.Utf8Len("~") <= Pushing.MAX_SHORT_STRING;
  }

  lemma BeyondBeatsProper(a: Storage.Record, b: Storage.Record)
    requires BeyondTime(a.UpdatedAt()) && Proper(b.UpdatedAt())
    ensures Storage.Beats(a, b) && !Storage.Beats(b, a)
  {
    var t: Timestamps.Instant :| t.Valid() && b.UpdatedAt() == Timestamps.Format(t);
    assert Text.Less(Timestamps.Format(t), a.UpdatedAt());
    Storage.BeatsAsymmetric(a, b);
  }

  /** Whatever is pushed for the snippet in this request has a proper stamp. */
  ghost predicate PushesProperly(req: Request, team: string, id: string) {
    req.op.Push? && req.op.team == team ==>
      forall s :: s in req.op.batch.snippets && s.id == id ==> Proper(s.updatedAt)
  }

  /**
   One stamp beyond time, and the snippet is fixed: no history of properly stamped pushes, its author's,
   a manager's or an owner's, changes or deletes it.
   */
  lemma {:induction false} BeyondTimeIsForGood(cfg: Config, db: Db, reqs: seq<Request>, team: string, id: string)
    requires Authorship.Snippet(db, team, id).Some? && BeyondTime(Authorship.Snippet(db, team, id).value.updatedAt)
    requires forall i :: 0 <= i < |reqs| ==> PushesProperly(reqs[i], team, id)
    ensures Authorship.Snippet(Run(cfg, db, reqs), team, id) == Authorship.Snippet(db, team, id)
  {
    if reqs == [] {
    } else {
      var n := |reqs| - 1;
      var before := Run(cfg, db, reqs[..n]);
      BeyondTimeIsForGood(cfg, db, reqs[..n], team, id);
      BeyondTimeStep(cfg, before, reqs[n], team, id);
    }
  }

  lemma BeyondTimeStep(cfg: Config, db: Db, req: Request, team: string, id: string)
    requires Authorship.Snippet(db, team, id).Some? && BeyondTime(Authorship.Snippet(db, team, id).value.updatedAt)
    requires PushesProperly(req, team, id)
    ensures Authorship.Snippet(Next(cfg, db, req).db, team, id) == Authorship.Snippet(db, team, id)
  {
    var sub, role := Authorship.SnippetStep(cfg, db, req, team, id);
    var was, now := Authorship.Snippet(db, team, id), Authorship.Snippet(Next(cfg, db, req).db, team, id);
    if now != was {
      var s :| s in req.op.batch.snippets && s.id == id && now == Some(s.(owner := now.value.owner));
      BeyondBeatsProper(Storage.Snip(was.value), Storage.Snip(now.value));
      assert false;
    }
  }
}
