/** backend/api/helpers/follow_helper.py: the follow table, one row per
    (user, campaign) pair. */
module FollowModel {

  import opened Outcomes
  import opened Text
  import opened Tables
  import opened Models

  /** No (user, campaign) pair is stored twice. */
  ghost predicate UniquePairs(t: Table<Follow>) {
    forall i, j :: i in t.rows && j in t.rows && i != j ==> t.rows[i] != t.rows[j]
  }

  /** `Follows.query.filter_by(user_id=u, campaign_id=c).first()`. */
  function FindFollow(t: Table<Follow>, userId: Id, campaignId: Id): (r: Option<Row<Follow>>)
    ensures r.Some? ==> r.value.id in t.rows && r.value.rec == Follow(userId, campaignId) && t.rows[r.value.id] == r.value.rec
    ensures Tables.Valid(t) ==> (r.None? <==> forall id :: id in t.rows ==> t.rows[id] != Follow(userId, campaignId))
  {
    First(t, (f: Follow) => f == Follow(userId, campaignId))
  }

  function FollowCampaign(t: Table<Follow>, userId: Id, campaignId: Id, commit: Commit)
    : (r: Outcome<Result<Row<Follow>>, Table<Follow>>)
    ensures r.reply.Err? ==> r.state == t
    ensures FindFollow(t, userId, campaignId).Some? ==> r.reply == Err(ValueError("User already follows this campaign."))
    ensures FindFollow(t, userId, campaignId).None? && commit == IntegrityViolation ==>
      r.reply == Err(RuntimeError("Could not follow campaign due to database integrity error."))
    ensures r.reply.Ok? <==> FindFollow(t, userId, campaignId).None? && commit == Committed
    ensures r.reply.Ok? ==>
      && r.reply.value == Row(t.next, Follow(userId, campaignId))
      && r.state == Table(t.rows[t.next := Follow(userId, campaignId)], t.next + 1)
    ensures Tables.Valid(t) ==> Tables.Valid(r.state)
    ensures Tables.Valid(t) && UniquePairs(t) ==> UniquePairs(r.state)
  {
    if FindFollow(t, userId, campaignId).Some? then Outcome(Err(ValueError("User already follows this campaign.")), t)
    else if commit == IntegrityViolation then
      Outcome(Err(RuntimeError("Could not follow campaign due to database integrity error.")), t)
    else if commit == StoreFailure then Outcome(Err(RuntimeError("Could not follow campaign")), t)
    else
      assert commit == Committed;
      var (t', id) := Insert(t, Follow(userId, campaignId));
      Outcome(Ok(Row(id, Follow(userId, campaignId))), t')
  }

  function UnfollowCampaign(t: Table<Follow>, userId: Id, campaignId: Id, commit: Commit)
    : (r: Outcome<Result<string>, Table<Follow>>)
    ensures r.reply.Err? ==> r.state == t
    ensures FindFollow(t, userId, campaignId).None? ==> r.reply == Err(ValueError("User is not following this campaign."))
    ensures r.reply.Ok? <==> FindFollow(t, userId, campaignId).Some? && commit == Committed
    ensures r.reply.Ok? ==>
      var id := FindFollow(t, userId, campaignId).value.id;
      && r.reply.value == "User " + IntToString(userId) + " unfollowed campaign " + IntToString(campaignId) + " successfully."
      && r.state.next == t.next && r.state.rows.Keys == t.rows.Keys - {id}
      && (forall k :: k in r.state.rows ==> r.state.rows[k] == t.rows[k])
    ensures Tables.Valid(t) ==> Tables.Valid(r.state)
    ensures UniquePairs(t) ==> UniquePairs(r.state)
  {
    match FindFollow(t, userId, campaignId)
    case None => Outcome(Err(ValueError("User is not following this campaign.")), t)
    case Some(row) =>
      if commit != Committed then Outcome(Err(RuntimeError("Could not unfollow campaign")), t)
      else
        Outcome(Ok("User " + IntToString(userId) + " unfollowed campaign " + IntToString(campaignId) + " successfully."),
                Remove(t, row.id))
  }

  function DeleteFollow(t: Table<Follow>, id: Id, commit: Commit): (r: Outcome<Result<string>, Table<Follow>>)
    ensures r.reply.Err? ==> r.state == t
    ensures id !in t.rows ==> r.reply == Err(ValueError("No follow record found with id: " + IntToString(id)))
    ensures r.reply.Ok? <==> id in t.rows && commit == Committed
    ensures r.reply.Ok? ==>
      && r.reply.value == "Follow record " + IntToString(id) + " deleted successfully."
      && r.state.next == t.next && r.state.rows.Keys == t.rows.Keys - {id}
      && (forall k :: k in r.state.rows ==> r.state.rows[k] == t.rows[k])
    ensures UniquePairs(t) ==> UniquePairs(r.state)
  {
    if id !in t.rows then Outcome(Err(ValueError("No follow record found with id: " + IntToString(id))), t)
    else if commit != Committed then Outcome(Err(RuntimeError("Could not delete follow record")), t)
    else Outcome(Ok("Follow record " + IntToString(id) + " deleted successfully."), Remove(t, id))
  }

  // ---------------------------------------------------------------------
  // Lookups

  function ViewFollowById(t: Table<Follow>, id: Id): (r: Result<Row<Follow>>)
    ensures r.Ok? <==> id in t.rows
    ensures r.Ok? ==> r.value == Row(id, t.rows[id])
    ensures r.Err? ==> r.error == ValueError("No follow record found with follow id: " + IntToString(id))
  {
    if id in t.rows then Ok(Row(id, t.rows[id]))
    else Err(ValueError("No follow record found with follow id: " + IntToString(id)))
  }

  function ViewAllFollows(t: Table<Follow>): (r: Result<seq<Row<Follow>>>)
    ensures r.Ok? ==> r.value != [] && forall i :: 0 <= i < |r.value| ==> r.value[i].id in t.rows && t.rows[r.value[i].id] == r.value[i].rec
    ensures Tables.Valid(t) ==> (r.Err? <==> t.rows == map[])
    ensures Tables.Valid(t) && r.Ok? ==> forall id :: id in t.rows ==> Row(id, t.rows[id]) in r.value
    ensures r.Err? ==> r.error == ValueError("No follow records found.")
  {
    var all := Select(t, All<Follow>);
    if all == [] then Err(ValueError("No follow records found."))
    else assert all[0].id in t.rows; Ok(all)
  }

  function ViewAllFollowedCampaignsByUser(t: Table<Follow>, userId: Id): (r: Result<seq<Row<Follow>>>)
    ensures r.Ok? ==> r.value != [] && forall i :: 0 <= i < |r.value| ==>
      r.value[i].id in t.rows && t.rows[r.value[i].id] == r.value[i].rec && r.value[i].rec.userId == userId
    ensures Tables.Valid(t) ==> (r.Err? <==> forall id :: id in t.rows ==> t.rows[id].userId != userId)
    ensures Tables.Valid(t) && r.Ok? ==> forall id :: id in t.rows && t.rows[id].userId == userId ==> Row(id, t.rows[id]) in r.value
    ensures r.Err? ==> r.error == ValueError("No campaigns followed by user id: " + IntToString(userId))
  {
    var found := Select(t, (f: Follow) => f.userId == userId);
    if found == [] then Err(ValueError("No campaigns followed by user id: " + IntToString(userId)))
    else assert found[0].id in t.rows; Ok(found)
  }

  function ViewAllFollowersByCampaign(t: Table<Follow>, campaignId: Id): (r: Result<seq<Row<Follow>>>)
    ensures r.Ok? ==> r.value != [] && forall i :: 0 <= i < |r.value| ==>
      r.value[i].id in t.rows && t.rows[r.value[i].id] == r.value[i].rec && r.value[i].rec.campaignId == campaignId
    ensures Tables.Valid(t) ==> (r.Err? <==> forall id :: id in t.rows ==> t.rows[id].campaignId != campaignId)
    ensures Tables.Valid(t) && r.Ok? ==> forall id :: id in t.rows && t.rows[id].campaignId == campaignId ==> Row(id, t.rows[id]) in r.value
    ensures r.Err? ==> r.error == ValueError("No followers found for campaign id: " + IntToString(campaignId))
  {
    var found := Select(t, (f: Follow) => f.campaignId == campaignId);
    if found == [] then Err(ValueError("No followers found for campaign id: " + IntToString(campaignId)))
    else assert found[0].id in t.rows; Ok(found)
  }

  function IsUserFollowing(t: Table<Follow>, userId: Id, campaignId: Id): (r: bool)
    ensures r ==> exists id :: id in t.rows && t.rows[id] == Follow(userId, campaignId)
    ensures Tables.Valid(t) && (exists id :: id in t.rows && t.rows[id] == Follow(userId, campaignId)) ==> r
  {
    FindFollow(t, userId, campaignId).Some?
  }

  /** The keys of the follow rows of campaign `campaignId`. */
  ghost function FollowersOf(t: Table<Follow>, campaignId: Id): set<Id> {
    set id | id in t.rows && t.rows[id].campaignId == campaignId
  }

  ghost function FollowedBy(t: Table<Follow>, userId: Id): set<Id> {
    set id | id in t.rows && t.rows[id].userId == userId
  }

  function OfCampaign(campaignId: Id): Follow -> bool { (f: Follow) => f.campaignId == campaignId }
  function OfUser(userId: Id): Follow -> bool { (f: Follow) => f.userId == userId }

  /** `count(follow_id)` over the campaign's rows, `or 0`: the number of
      follow rows naming the campaign, 0 when none does. */
  function CountFollowers(t: Table<Follow>, campaignId: Id): (r: nat)
    ensures Tables.Valid(t) ==> r == |FollowersOf(t, campaignId)|
    ensures (forall id :: id in t.rows ==> t.rows[id].campaignId != campaignId) ==> r == 0
  {
    var byCampaign := OfCampaign(campaignId);
    assert Tables.Valid(t) ==> |Select(t, byCampaign)| == |FollowersOf(t, campaignId)| by {
      if Tables.Valid(t) {
        SelectCount(t, byCampaign);
        assert Matching(t, byCampaign) == FollowersOf(t, campaignId);
      }
    }
    assert (forall id :: id in t.rows ==> t.rows[id].campaignId != campaignId) ==> Select(t, byCampaign) == [] by {
      if Select(t, byCampaign) != [] {
        assert Select(t, byCampaign)[0].id in t.rows;
      }
    }
    |Select(t, byCampaign)|
  }

  /** The same count over the user's rows: the number of campaigns the user
      follows. */
  function CountFollowedCampaigns(t: Table<Follow>, userId: Id): (r: nat)
    ensures Tables.Valid(t) ==> r == |FollowedBy(t, userId)|
    ensures (forall id :: id in t.rows ==> t.rows[id].userId != userId) ==> r == 0
  {
    var byUser := OfUser(userId);
    assert Tables.Valid(t) ==> |Select(t, byUser)| == |FollowedBy(t, userId)| by {
      if Tables.Valid(t) {
        SelectCount(t, byUser);
        assert Matching(t, byUser) == FollowedBy(t, userId);
      }
    }
    assert (forall id :: id in t.rows ==> t.rows[id].userId != userId) ==> Select(t, byUser) == [] by {
      if Select(t, byUser) != [] {
        assert Select(t, byUser)[0].id in t.rows;
      }
    }
    |Select(t, byUser)|
  }

  /** After a successful unfollow the user no longer follows the campaign. */
  lemma UnfollowEndsFollowing(t: Table<Follow>, userId: Id, campaignId: Id)
    requires Tables.Valid(t) && UniquePairs(t)
    requires UnfollowCampaign(t, userId, campaignId, Committed).reply.Ok?
    ensures !IsUserFollowing(UnfollowCampaign(t, userId, campaignId, Committed).state, userId, campaignId)
  {
    var gone := FindFollow(t, userId, campaignId).value.id;
    var t' := UnfollowCampaign(t, userId, campaignId, Committed).state;
    forall id | id in t'.rows ensures t'.rows[id] != Follow(userId, campaignId) {
      assert id != gone && t'.rows[id] == t.rows[id];
    }
  }

  /** Following and then unfollowing the same pair restores the stored rows,
      and so both counts. */
  lemma FollowThenUnfollowRestores(t: Table<Follow>, userId: Id, campaignId: Id, c: Id, u: Id)
    requires Tables.Valid(t)
    requires FollowCampaign(t, userId, campaignId, Committed).reply.Ok?
    ensures var t' := UnfollowCampaign(FollowCampaign(t, userId, campaignId, Committed).state, userId, campaignId, Committed);
      && t'.reply.Ok?
      && t'.state.rows == t.rows
      && CountFollowers(t'.state, c) == CountFollowers(t, c)
      && CountFollowedCampaigns(t'.state, u) == CountFollowedCampaigns(t, u)
  {
    var t1 := FollowCampaign(t, userId, campaignId, Committed).state;
    var found := FindFollow(t1, userId, campaignId);
    assert FindFollow(t, userId, campaignId).None?;
    assert t1.rows[t.next] == Follow(userId, campaignId);
    assert found.Some?;
    assert found.value.id !in t.rows ==> found.value.id == t.next;
    assert found.value.id == t.next;
    var t2 := UnfollowCampaign(t1, userId, campaignId, Committed).state;
    assert t2.rows == t.rows;
    assert FollowersOf(t2, c) == FollowersOf(t, c);
    assert FollowedBy(t2, u) == FollowedBy(t, u);
  }
}

/** The follow helpers as methods on the shared database. */
module FollowHelper {

  import opened Outcomes
  import opened Text
  import opened Tables
  import opened Models
  import opened Database
  import M = FollowModel

  method FollowCampaign(db: Db, userId: Id, campaignId: Id, commit: Commit) returns (r: Result<Row<Follow>>)
    requires db.Valid()
    modifies db`follows
    ensures db.Valid()
    ensures Outcome(r, db.follows) == M.FollowCampaign(old(db.follows), userId, campaignId, commit)
  {
    if M.FindFollow(db.follows, userId, campaignId).Some? {
      return Err(ValueError("User already follows this campaign."));
    }
    if commit == IntegrityViolation {
      return Err(RuntimeError("Could not follow campaign due to database integrity error."));
    } else if commit == StoreFailure {
      return Err(RuntimeError("Could not follow campaign"));
    }
    var follow := Follow(userId, campaignId);
    var id := db.follows.next;
    db.follows := Table(db.follows.rows[id := follow], id + 1);
    r := Ok(Row(id, follow));
  }

  method UnfollowCampaign(db: Db, userId: Id, campaignId: Id, commit: Commit) returns (r: Result<string>)
    requires db.Valid()
    modifies db`follows
    ensures db.Valid()
    ensures Outcome(r, db.follows) == M.UnfollowCampaign(old(db.follows), userId, campaignId, commit)
  {
    var found := M.FindFollow(db.follows, userId, campaignId);
    if found.None? {
      return Err(ValueError("User is not following this campaign."));
    }
    if commit != Committed {
      return Err(RuntimeError("Could not unfollow campaign"));
    }
    db.follows := Remove(db.follows, found.value.id);
    r := Ok("User " + IntToString(userId) + " unfollowed campaign " + IntToString(campaignId) + " successfully.");
  }

  method DeleteFollow(db: Db, id: Id, commit: Commit) returns (r: Result<string>)
    requires db.Valid()
    modifies db`follows
    ensures db.Valid()
    ensures Outcome(r, db.follows) == M.DeleteFollow(old(db.follows), id, commit)
  {
    if id !in db.follows.rows {
      return Err(ValueError("No follow record found with id: " + IntToString(id)));
    }
    if commit != Committed {
      return Err(RuntimeError("Could not delete follow record"));
    }
    db.follows := Remove(db.follows, id);
    r := Ok("Follow record " + IntToString(id) + " deleted successfully.");
  }
}
