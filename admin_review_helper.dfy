/** backend/api/helpers/admin_review_helper.py: admins' reviews of campaigns. */
module AdminReviewModel {

  import opened Outcomes
  import opened Text
  import opened Tables
  import opened Models

  function NotFound(id: Id): string { "No admin review with review id: " + IntToString(id) + " was found" }

  /** `not decision`: a missing or empty decision. */
  predicate EmptyDecision(decision: Option<string>) { decision.None? || decision.value == "" }

  function CreateAdminReview(t: Table<AdminReview>, adminId: Id, campaignId: Id, decision: Option<string>,
                             comments: Option<string>, commit: Commit)
    : (r: Outcome<Result<Row<AdminReview>>, Table<AdminReview>>)
    ensures r.reply.Err? ==> r.state == t
    ensures EmptyDecision(decision) ==> r.reply == Err(ValueError("Decision field cannot be empty"))
    ensures r.reply.Ok? <==> !EmptyDecision(decision) && commit == Committed
    ensures r.reply.Ok? ==>
      var rev := AdminReview(adminId, campaignId, decision.value, comments);
      r.reply.value == Row(t.next, rev) && r.state == Table(t.rows[t.next := rev], t.next + 1)
    ensures Tables.Valid(t) ==> Tables.Valid(r.state)
  {
    if EmptyDecision(decision) then Outcome(Err(ValueError("Decision field cannot be empty")), t)
    else if commit != Committed then
      Outcome(Err(RuntimeError("Failed to add admin review for campaign " + IntToString(campaignId))), t)
    else
      var rev := AdminReview(adminId, campaignId, decision.value, comments);
      var (t', id) := Insert(t, rev);
      Outcome(Ok(Row(id, rev)), t')
  }

  function ViewAdminReviewByReviewId(t: Table<AdminReview>, id: Id): (r: Result<Row<AdminReview>>)
    ensures r.Ok? <==> id in t.rows
    ensures r.Ok? ==> r.value == Row(id, t.rows[id])
    ensures r.Err? ==> r.error == ValueError(NotFound(id))
  {
    if id in t.rows then Ok(Row(id, t.rows[id])) else Err(ValueError(NotFound(id)))
  }

  function ViewAllAdminReviewsByAdminId(t: Table<AdminReview>, adminId: Id): (r: seq<Row<AdminReview>>)
    ensures forall i :: 0 <= i < |r| ==> r[i].id in t.rows && t.rows[r[i].id] == r[i].rec && r[i].rec.adminId == adminId
    ensures Tables.Valid(t) ==> forall id :: id in t.rows && t.rows[id].adminId == adminId ==> Row(id, t.rows[id]) in r
  {
    Select(t, (a: AdminReview) => a.adminId == adminId)
  }

  function ViewAllAdminReviewsByCampaignId(t: Table<AdminReview>, campaignId: Id): (r: seq<Row<AdminReview>>)
    ensures forall i :: 0 <= i < |r| ==> r[i].id in t.rows && t.rows[r[i].id] == r[i].rec && r[i].rec.campaignId == campaignId
    ensures Tables.Valid(t) ==> forall id :: id in t.rows && t.rows[id].campaignId == campaignId ==> Row(id, t.rows[id]) in r
  {
    Select(t, (a: AdminReview) => a.campaignId == campaignId)
  }

  function ViewReviewsByDecision(t: Table<AdminReview>, decision: string): (r: seq<Row<AdminReview>>)
    ensures forall i :: 0 <= i < |r| ==> r[i].id in t.rows && t.rows[r[i].id] == r[i].rec && r[i].rec.decision == decision
    ensures Tables.Valid(t) ==> forall id :: id in t.rows && t.rows[id].decision == decision ==> Row(id, t.rows[id]) in r
  {
    Select(t, (a: AdminReview) => a.decision == decision)
  }

  function DeleteAdminReview(t: Table<AdminReview>, id: Id, commit: Commit): (r: Outcome<Result<string>, Table<AdminReview>>)
    ensures r.reply.Err? ==> r.state == t
    ensures id !in t.rows ==> r.reply == Err(ValueError(NotFound(id)))
    ensures r.reply.Ok? <==> id in t.rows && commit == Committed
    ensures r.reply.Ok? ==>
      && r.reply.value == "Admin review " + IntToString(id) + " deleted successfully"
      && r.state.next == t.next && r.state.rows.Keys == t.rows.Keys - {id}
      && (forall k :: k in r.state.rows ==> r.state.rows[k] == t.rows[k])
  {
    if id !in t.rows then Outcome(Err(ValueError(NotFound(id))), t)
    else if commit != Committed then
      Outcome(Err(RuntimeError("Could not delete admin review with review id " + IntToString(id))), t)
    else Outcome(Ok("Admin review " + IntToString(id) + " deleted successfully"), Remove(t, id))
  }

  // ---------------------------------------------------------------------
  // update_admin_review

  /** One keyword argument: decision or comments (each possibly None), or any
      other key. */
  datatype ReviewKwarg = Decision(decision: Option<string>) | Comments(comments: Option<string>) | Other(key: string)

  function KwargKey(kw: ReviewKwarg): string {
    match kw
    case Decision(_) => "decision"
    case Comments(_) => "comments"
    case Other(key) => key
  }

  /** Distinct keys, and `Other` only outside the allow-list. */
  ghost predicate WellFormedKwargs(kwargs: seq<ReviewKwarg>) {
    && (forall i :: 0 <= i < |kwargs| && kwargs[i].Other? ==> kwargs[i].key !in {"decision", "comments"})
    && (forall i, j :: 0 <= i < j < |kwargs| ==> KwargKey(kwargs[i]) != KwargKey(kwargs[j]))
  }

  /** The loop over `kwargs.items()`: a decision of None stops it with an
      error; allow-listed keys are set; others are skipped. An empty decision
      is accepted here. */
  function ApplyKwargs(rev: AdminReview, kwargs: seq<ReviewKwarg>): Result<AdminReview>
    decreases |kwargs|
  {
    if kwargs == [] then Ok(rev)
    else match kwargs[0]
      case Decision(None) => Err(ValueError("Decision field cannot be empty"))
      case Decision(Some(d)) => ApplyKwargs(rev.(decision := d), kwargs[1..])
      case Comments(c) => ApplyKwargs(rev.(comments := c), kwargs[1..])
      case Other(_) => ApplyKwargs(rev, kwargs[1..])
  }

  /** What the loop does, stated on its own terms: it fails exactly when a
      decision of None is passed; otherwise decision and comments take the
      values passed for them and everything else stays. */
  lemma {:induction false} ApplyKwargsEffect(rev: AdminReview, kwargs: seq<ReviewKwarg>)
    requires WellFormedKwargs(kwargs)
    ensures ApplyKwargs(rev, kwargs).Err? <==> Decision(None) in kwargs
    ensures ApplyKwargs(rev, kwargs).Ok? ==>
      var r := ApplyKwargs(rev, kwargs).value;
      && r.adminId == rev.adminId && r.campaignId == rev.campaignId
      && (forall i :: 0 <= i < |kwargs| && kwargs[i].Decision? ==> r.decision == kwargs[i].decision.value)
      && (forall i :: 0 <= i < |kwargs| && kwargs[i].Comments? ==> r.comments == kwargs[i].comments)
      && ((forall i :: 0 <= i < |kwargs| ==> !kwargs[i].Decision?) ==> r.decision == rev.decision)
      && ((forall i :: 0 <= i < |kwargs| ==> !kwargs[i].Comments?) ==> r.comments == rev.comments)
    decreases |kwargs|
  {
    if kwargs != [] {
      var rest := kwargs[1..];
      assert WellFormedKwargs(rest) by {
        forall i, j | 0 <= i < j < |rest| ensures KwargKey(rest[i]) != KwargKey(rest[j]) {
          assert rest[i] == kwargs[i + 1] && rest[j] == kwargs[j + 1];
        }
      }
      assert forall i :: 0 <= i < |rest| ==> rest[i] == kwargs[i + 1];
      assert forall i :: 1 <= i < |kwargs| ==> KwargKey(kwargs[i]) != KwargKey(kwargs[0]);
      match kwargs[0]
      case Decision(None) =>
      case Decision(Some(d)) => ApplyKwargsEffect(rev.(decision := d), rest);
      case Comments(c) => ApplyKwargsEffect(rev.(comments := c), rest);
      case Other(_) => ApplyKwargsEffect(rev, rest);
    }
  }

  function UpdateAdminReview(t: Table<AdminReview>, id: Id, kwargs: seq<ReviewKwarg>, commit: Commit)
    : (r: Outcome<Result<Row<AdminReview>>, Table<AdminReview>>)
    ensures r.reply.Err? ==> r.state == t
    ensures id !in t.rows ==> r.reply == Err(ValueError(NotFound(id)))
    ensures id in t.rows && ApplyKwargs(t.rows[id], kwargs).Err? ==> r.reply == Err(ApplyKwargs(t.rows[id], kwargs).error)
    ensures r.reply.Ok? <==> id in t.rows && ApplyKwargs(t.rows[id], kwargs).Ok? && commit == Committed
    ensures r.reply.Ok? ==>
      var rev := ApplyKwargs(t.rows[id], kwargs).value;
      r.reply.value == Row(id, rev) && r.state == Table(t.rows[id := rev], t.next)
    ensures Tables.Valid(t) ==> Tables.Valid(r.state)
  {
    if id !in t.rows then Outcome(Err(ValueError(NotFound(id))), t)
    else match ApplyKwargs(t.rows[id], kwargs)
      case Err(e) => Outcome(Err(e), t)
      case Ok(rev) =>
        if commit != Committed then Outcome(Err(RuntimeError("Could not update admin review " + IntToString(id))), t)
        else Outcome(Ok(Row(id, rev)), Put(t, id, rev))
  }

  /** An empty decision is accepted by the update, though create rejects it. */
  lemma EmptyDecisionAcceptedByUpdate(t: Table<AdminReview>, id: Id, adminId: Id, campaignId: Id, comments: Option<string>)
    requires id in t.rows
    ensures UpdateAdminReview(t, id, [Decision(Some(""))], Committed).reply.Ok?
    ensures UpdateAdminReview(t, id, [Decision(Some(""))], Committed).state.rows[id].decision == ""
    ensures CreateAdminReview(t, adminId, campaignId, Some(""), comments, Committed).reply.Err?
  {
    var kwargs := [Decision(Some(""))];
    assert kwargs[1..] == [];
  }
}

/** The admin-review helpers as methods on the shared database. */
module AdminReviewHelper {

  import opened Outcomes
  import opened Text
  import opened Tables
  import opened Models
  import opened Database
  import M = AdminReviewModel

  method CreateAdminReview(db: Db, adminId: Id, campaignId: Id, decision: Option<string>, comments: Option<string>, commit: Commit)
    returns (r: Result<Row<AdminReview>>)
    requires db.Valid()
    modifies db`reviews
    ensures db.Valid()
    ensures Outcome(r, db.reviews) == M.CreateAdminReview(old(db.reviews), adminId, campaignId, decision, comments, commit)
  {
    if decision.None? || decision.value == "" {
      return Err(ValueError("Decision field cannot be empty"));
    }
    if commit != Committed {
      return Err(RuntimeError("Failed to add admin review for campaign " + IntToString(campaignId)));
    }
    var review := AdminReview(adminId, campaignId, decision.value, comments);
    var id := db.reviews.next;
    db.reviews := Table(db.reviews.rows[id := review], id + 1);
    r := Ok(Row(id, review));
  }

  method DeleteAdminReview(db: Db, id: Id, commit: Commit) returns (r: Result<string>)
    requires db.Valid()
    modifies db`reviews
    ensures db.Valid()
    ensures Outcome(r, db.reviews) == M.DeleteAdminReview(old(db.reviews), id, commit)
  {
    if id !in db.reviews.rows {
      return Err(ValueError(M.NotFound(id)));
    }
    if commit != Committed {
      return Err(RuntimeError("Could not delete admin review with review id " + IntToString(id)));
    }
    db.reviews := Remove(db.reviews, id);
    r := Ok("Admin review " + IntToString(id) + " deleted successfully");
  }

  /** The `for field, value in kwargs.items()` loop of update_admin_review. */
  method ApplyReviewKwargs(review: AdminReview, kwargs: seq<M.ReviewKwarg>) returns (r: Result<AdminReview>)
    ensures r == M.ApplyKwargs(review, kwargs)
  {
    var current := review;
    var i := 0;
    while i < |kwargs|
      invariant 0 <= i <= |kwargs|
      invariant M.ApplyKwargs(current, kwargs[i..]) == M.ApplyKwargs(review, kwargs)
    {
      assert kwargs[i..][0] == kwargs[i] && kwargs[i..][1..] == kwargs[i + 1..];
      match kwargs[i] {
        case Decision(d) =>
          if d.None? {
            return Err(ValueError("Decision field cannot be empty"));
          }
          current := current.(decision := d.value);
        case Comments(c) =>
          current := current.(comments := c);
        case Other(_) =>
      }
      i := i + 1;
    }
    r := Ok(current);
  }

  method UpdateAdminReview(db: Db, id: Id, kwargs: seq<M.ReviewKwarg>, commit: Commit) returns (r: Result<Row<AdminReview>>)
    requires db.Valid()
    modifies db`reviews
    ensures db.Valid()
    ensures Outcome(r, db.reviews) == M.UpdateAdminReview(old(db.reviews), id, kwargs, commit)
  {
    if id !in db.reviews.rows {
      return Err(ValueError(M.NotFound(id)));
    }
    var edited := ApplyReviewKwargs(db.reviews.rows[id], kwargs);
    if edited.Err? {
      return Err(edited.error);
    }
    if commit != Committed {
      return Err(RuntimeError("Could not update admin review " + IntToString(id)));
    }
    db.reviews := Put(db.reviews, id, edited.value);
    r := Ok(Row(id, edited.value));
  }
}
