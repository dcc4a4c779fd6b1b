/** backend/api/helpers/donation_helper.py: donations to campaigns. */
module DonationModel {

  import opened Outcomes
  import opened Text
  import opened Tables
  import opened Models

  function NotFound(id: Id): string { "Could not find donation with donation id: " + IntToString(id) }

  /** `not amount`: a missing or zero amount. A negative amount is truthy and
      passes. */
  predicate EmptyAmount(amount: Option<Cents>) { amount.None? || amount.value == 0 }

  /** The status argument exactly as the code converts it: an omitted status
      takes the default `""`, which `DonationStatus("")` rejects. */
  function StatusArgAsWritten(status: Option<string>): Option<DonationStatus> {
    ParseDonationStatus(if status.None? then "" else status.value)
  }

  /** As written, a donation created without a status is always rejected. */
  lemma OmittedStatusRejectedAsWritten()
    ensures StatusArgAsWritten(None).None?
    ensures StatusArg(None) == Some(DonationStatus.Pending)
  {
  }

  /** The intended conversion: an omitted status means pending; a given status
      converts as written. */
  function StatusArg(status: Option<string>): (r: Option<DonationStatus>)
    ensures status.None? ==> r == Some(DonationStatus.Pending)
    ensures status.Some? ==> r == StatusArgAsWritten(status)
    ensures r.Some? <==> status.None? || status.value in {"pending", "successful", "failed", "refunded", "cancelled"}
  {
    if status.None? then Some(DonationStatus.Pending) else ParseDonationStatus(status.value)
  }

  /** `f"Invalid donation status: {status}"`. */
  function InvalidStatus(status: Option<string>): string {
    "Invalid donation status: " + (if status.None? then "" else status.value)
  }

  function CreateDonation(t: Table<Donation>, userId: Id, campaignId: Id, amount: Option<Cents>, status: Option<string>,
                          commit: Commit)
    : (r: Outcome<Result<Row<Donation>>, Table<Donation>>)
    ensures r.reply.Err? ==> r.state == t
    ensures EmptyAmount(amount) ==> r.reply == Err(ValueError("Amount cannot be empty/0"))
    ensures !EmptyAmount(amount) && StatusArg(status).None? ==> r.reply == Err(ValueError(InvalidStatus(status)))
    ensures r.reply.Ok? <==> !EmptyAmount(amount) && StatusArg(status).Some? && commit == Committed && FitsNumeric82(amount.value)
    ensures r.reply.Ok? ==>
      var d := Donation(userId, campaignId, amount.value, StatusArg(status).value);
      r.reply.value == Row(t.next, d) && r.state == Table(t.rows[t.next := d], t.next + 1)
    ensures Tables.Valid(t) ==> Tables.Valid(r.state)
  {
    if EmptyAmount(amount) then Outcome(Err(ValueError("Amount cannot be empty/0")), t)
    else match StatusArg(status)
      case None => Outcome(Err(ValueError(InvalidStatus(status))), t)
      case Some(st) =>
        var d := Donation(userId, campaignId, amount.value, st);
        if commit != Committed || !StorableDonation(d) then Outcome(Err(RuntimeError("Could not create donation")), t)
        else
          var (t', id) := Insert(t, d);
          Outcome(Ok(Row(id, d)), t')
  }

  /** `create_donation` exactly as written: the default status `""` reaches
      `DonationStatus("")`, so a donation with an amount but no status is
      rejected; otherwise it behaves as the corrected `CreateDonation`. */
  function CreateDonationAsWritten(t: Table<Donation>, userId: Id, campaignId: Id, amount: Option<Cents>, status: Option<string>,
                                   commit: Commit)
    : (r: Outcome<Result<Row<Donation>>, Table<Donation>>)
    ensures r.reply.Err? ==> r.state == t
    ensures EmptyAmount(amount) ==> r.reply == Err(ValueError("Amount cannot be empty/0"))
    ensures !EmptyAmount(amount) && StatusArgAsWritten(status).None? ==> r == Outcome(Err(ValueError(InvalidStatus(status))), t)
    ensures r.reply.Ok? <==> !EmptyAmount(amount) && StatusArgAsWritten(status).Some? && commit == Committed && FitsNumeric82(amount.value)
    ensures r.reply.Ok? ==>
      var d := Donation(userId, campaignId, amount.value, StatusArgAsWritten(status).value);
      r.reply.value == Row(t.next, d) && r.state == Table(t.rows[t.next := d], t.next + 1)
  {
    if !EmptyAmount(amount) && StatusArgAsWritten(status).None? then Outcome(Err(ValueError(InvalidStatus(status))), t)
    else CreateDonation(t, userId, campaignId, amount, status, commit)
  }

  /** `create_donation(1, 1, 50)`: as written it raises "Invalid donation
      status: " and stores nothing; with the intended default it stores a
      pending donation. */
  lemma OmittedStatusCreateRejectedAsWritten(t: Table<Donation>)
    ensures CreateDonationAsWritten(t, 1, 1, Some(5000), None, Committed)
      == Outcome(Err(ValueError("Invalid donation status: ")), t)
    ensures CreateDonation(t, 1, 1, Some(5000), None, Committed).reply.Ok?
    ensures CreateDonation(t, 1, 1, Some(5000), None, Committed).reply.value.rec.status == DonationStatus.Pending
  {
    assert StatusArgAsWritten(None).None?;
    assert InvalidStatus(None) == "Invalid donation status: ";
  }

  /** Negative amounts are not rejected by this code: `not amount` is false
      for -500, and the donation is stored. */
  lemma NegativeAmountAccepted(t: Table<Donation>, userId: Id, campaignId: Id)
    ensures CreateDonationAsWritten(t, userId, campaignId, Some(-500), Some("pending"), Committed).reply.Ok?
    ensures CreateDonationAsWritten(t, userId, campaignId, Some(-500), Some("pending"), Committed).reply.value.rec.amount == -500
    ensures CreateDonation(t, userId, campaignId, Some(-500), Some("pending"), Committed).reply.Ok?
  {
  }

  function ViewDonationByDonationId(t: Table<Donation>, id: Id): (r: Result<Row<Donation>>)
    ensures r.Ok? <==> id in t.rows
    ensures r.Ok? ==> r.value == Row(id, t.rows[id])
    ensures r.Err? ==> r.error == ValueError(NotFound(id))
  {
    if id in t.rows then Ok(Row(id, t.rows[id])) else Err(ValueError(NotFound(id)))
  }

  function ViewAllDonationsByUser(t: Table<Donation>, userId: Id): (r: Result<seq<Row<Donation>>>)
    ensures r.Ok? ==> r.value != [] && forall i :: 0 <= i < |r.value| ==>
      r.value[i].id in t.rows && t.rows[r.value[i].id] == r.value[i].rec && r.value[i].rec.userId == userId
    ensures Tables.Valid(t) ==> (r.Err? <==> forall id :: id in t.rows ==> t.rows[id].userId != userId)
    ensures Tables.Valid(t) && r.Ok? ==> forall id :: id in t.rows && t.rows[id].userId == userId ==> Row(id, t.rows[id]) in r.value
    ensures r.Err? ==> r.error == ValueError("No donation found by user id: " + IntToString(userId))
  {
    var found := Select(t, (d: Donation) => d.userId == userId);
    if found == [] then Err(ValueError("No donation found by user id: " + IntToString(userId)))
    else assert found[0].id in t.rows; Ok(found)
  }

  function ViewAllDonationsByCampaign(t: Table<Donation>, campaignId: Id): (r: Result<seq<Row<Donation>>>)
    ensures r.Ok? ==> r.value != [] && forall i :: 0 <= i < |r.value| ==>
      r.value[i].id in t.rows && t.rows[r.value[i].id] == r.value[i].rec && r.value[i].rec.campaignId == campaignId
    ensures Tables.Valid(t) ==> (r.Err? <==> forall id :: id in t.rows ==> t.rows[id].campaignId != campaignId)
    ensures Tables.Valid(t) && r.Ok? ==> forall id :: id in t.rows && t.rows[id].campaignId == campaignId ==> Row(id, t.rows[id]) in r.value
    ensures r.Err? ==> r.error == ValueError("No donation found by campaign id: " + IntToString(campaignId))
  {
    var found := Select(t, (d: Donation) => d.campaignId == campaignId);
    if found == [] then Err(ValueError("No donation found by campaign id: " + IntToString(campaignId)))
    else assert found[0].id in t.rows; Ok(found)
  }

  function UpdateDonationStatus(t: Table<Donation>, id: Id, status: string, commit: Commit)
    : (r: Outcome<Result<Row<Donation>>, Table<Donation>>)
    ensures r.reply.Err? ==> r.state == t
    ensures id !in t.rows ==> r.reply == Err(ValueError(NotFound(id)))
    ensures id in t.rows && ParseDonationStatus(status).None? ==>
      r.reply == Err(ValueError("Invalid donation status: " + status))
    ensures r.reply.Ok? <==> id in t.rows && ParseDonationStatus(status).Some? && commit == Committed
    ensures r.reply.Ok? ==>
      var d := t.rows[id].(status := ParseDonationStatus(status).value);
      r.reply.value == Row(id, d) && r.state == Table(t.rows[id := d], t.next)
    ensures Tables.Valid(t) ==> Tables.Valid(r.state)
  {
    if id !in t.rows then Outcome(Err(ValueError(NotFound(id))), t)
    else match ParseDonationStatus(status)
      case None => Outcome(Err(ValueError("Invalid donation status: " + status)), t)
      case Some(st) =>
        if commit != Committed then Outcome(Err(RuntimeError("Could not update donation status.")), t)
        else
          var d := t.rows[id].(status := st);
          Outcome(Ok(Row(id, d)), Put(t, id, d))
  }

  /** cancel_donation returns nothing on success. */
  function CancelDonation(t: Table<Donation>, id: Id, commit: Commit): (r: Outcome<Result<()>, Table<Donation>>)
    ensures r.reply.Err? ==> r.state == t
    ensures id !in t.rows ==> r.reply == Err(ValueError("Donation not found"))
    ensures r.reply.Ok? <==> id in t.rows && commit == Committed
    ensures r.reply.Ok? ==> r.state == Table(t.rows[id := t.rows[id].(status := DonationStatus.Cancelled)], t.next)
  {
    if id !in t.rows then Outcome(Err(ValueError("Donation not found")), t)
    else if commit != Committed then Outcome(Err(RuntimeError("Could not cancel the donation.")), t)
    else Outcome(Ok(()), Put(t, id, t.rows[id].(status := DonationStatus.Cancelled)))
  }

  /** Cancelling twice leaves the same table as cancelling once. */
  lemma CancelIsIdempotent(t: Table<Donation>, id: Id)
    ensures CancelDonation(CancelDonation(t, id, Committed).state, id, Committed).state == CancelDonation(t, id, Committed).state
    ensures id in t.rows ==> CancelDonation(t, id, Committed).state.rows[id].status == DonationStatus.Cancelled
  {
    if id in t.rows {
      var t1 := CancelDonation(t, id, Committed).state;
      assert t1.rows[id := t1.rows[id].(status := DonationStatus.Cancelled)] == t1.rows;
    }
  }

  /** Cancelling is setting the status to "cancelled". */
  lemma CancelIsStatusUpdate(t: Table<Donation>, id: Id, commit: Commit)
    requires id in t.rows
    ensures CancelDonation(t, id, commit).state == UpdateDonationStatus(t, id, "cancelled", commit).state
  {
  }
}

/** The donation helpers as methods on the shared database. */
module DonationHelper {

  import opened Outcomes
  import opened Tables
  import opened Models
  import opened Database
  import M = DonationModel

  method CreateDonation(db: Db, userId: Id, campaignId: Id, amount: Option<Cents>, status: Option<string>, commit: Commit)
    returns (r: Result<Row<Donation>>)
    requires db.Valid()
    modifies db`donations
    ensures db.Valid()
    ensures Outcome(r, db.donations) == M.CreateDonation(old(db.donations), userId, campaignId, amount, status, commit)
  {
    if amount.None? || amount.value == 0 {
      return Err(ValueError("Amount cannot be empty/0"));
    }
    var status' := M.StatusArg(status);
    if status'.None? {
      return Err(ValueError(M.InvalidStatus(status)));
    }
    var donation := Donation(userId, campaignId, amount.value, status'.value);
    if commit != Committed || !StorableDonation(donation) {
      return Err(RuntimeError("Could not create donation"));
    }
    var id := db.donations.next;
    db.donations := Table(db.donations.rows[id := donation], id + 1);
    r := Ok(Row(id, donation));
  }

  method UpdateDonationStatus(db: Db, id: Id, status: string, commit: Commit) returns (r: Result<Row<Donation>>)
    requires db.Valid()
    modifies db`donations
    ensures db.Valid()
    ensures Outcome(r, db.donations) == M.UpdateDonationStatus(old(db.donations), id, status, commit)
  {
    if id !in db.donations.rows {
      return Err(ValueError(M.NotFound(id)));
    }
    var status' := ParseDonationStatus(status);
    if status'.None? {
      return Err(ValueError("Invalid donation status: " + status));
    }
    if commit != Committed {
      return Err(RuntimeError("Could not update donation status."));
    }
    var donation := db.donations.rows[id].(status := status'.value);
    db.donations := Put(db.donations, id, donation);
    r := Ok(Row(id, donation));
  }

  method CancelDonation(db: Db, id: Id, commit: Commit) returns (r: Result<()>)
    requires db.Valid()
    modifies db`donations
    ensures db.Valid()
    ensures Outcome(r, db.donations) == M.CancelDonation(old(db.donations), id, commit)
  {
    if id !in db.donations.rows {
      return Err(ValueError("Donation not found"));
    }
    if commit != Committed {
      return Err(RuntimeError("Could not cancel the donation."));
    }
    db.donations := Put(db.donations, id, db.donations.rows[id].(status := DonationStatus.Cancelled));
    r := Ok(());
  }
}
