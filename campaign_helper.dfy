/** backend/api/helpers/campaign_helper.py, as transitions of the campaign
    table and its update log. */
module CampaignModel {

  import opened Outcomes
  import opened Text
  import opened Tables
  import opened Models

  /** The two tables the campaign helpers change. */
  datatype CampaignTables = CampaignTables(campaigns: Table<Campaign>, updates: Table<CampaignUpdate>)

  ghost predicate ValidTables(s: CampaignTables) {
    Tables.Valid(s.campaigns) && Tables.Valid(s.updates)
  }

  /** What the database guarantees of every stored campaign. */
  ghost predicate AllStorable(t: Table<Campaign>) {
    forall id :: id in t.rows ==> StorableCampaign(t.rows[id])
  }

  function NoCampaignFound(id: Id): string {
    "No campaign found with campaign id: " + IntToString(id)
  }

  // ---------------------------------------------------------------------
  // create_campaign

  const InvalidStatusOrCategory: string := "Invalid status or category"

  /** `CampaignCategory(category)`; an omitted category (None) names no member. */
  function CategoryArg(category: Option<string>): Option<CampaignCategory> {
    match category
    case None => None
    case Some(s) => ParseCategory(s)
  }

  /** The status argument exactly as the code converts it. The default
      `status=None` is passed to `CampaignStatus(None)`, which names no member,
      so an omitted status is rejected like an unknown one. */
  function StatusArgAsWritten(status: Option<string>): Option<CampaignStatus> {
    match status
    case None => None
    case Some(s) => ParseCampaignStatus(s)
  }

  /** Omitting the status, as the signature allows, is rejected as written. */
  lemma OmittedStatusRejectedAsWritten()
    ensures StatusArgAsWritten(None).None?
    ensures StatusArg(None) == Some(CampaignStatus.Pending)
  {
  }

  /** The intended conversion: an omitted status takes the default, pending;
      a given status converts as written. */
  function StatusArg(status: Option<string>): (r: Option<CampaignStatus>)
    ensures status.None? ==> r == Some(CampaignStatus.Pending)
    ensures status.Some? ==> r == StatusArgAsWritten(status)
    ensures r.Some? <==> status.None? || status.value in {"pending", "active", "rejected", "completed"}
  {
    match status
    case None => Some(CampaignStatus.Pending)
    case Some(s) => ParseCampaignStatus(s)
  }

  function CreateCampaign(s: CampaignTables, creatorId: Id, title: string, description: string, goal: Cents,
                          category: Option<string>, status: Option<string>, commit: Commit)
    : (r: Outcome<Result<Row<Campaign>>, CampaignTables>)
    ensures r.reply.Err? ==> r.state == s
    ensures CategoryArg(category).None? || StatusArg(status).None? ==>
      r.reply == Err(ValueError(InvalidStatusOrCategory))
    ensures r.reply.Ok? <==>
      && CategoryArg(category).Some? && StatusArg(status).Some? && commit == Committed
      && |title| <= 80 && FitsNumeric82(goal)
    ensures r.reply.Ok? ==>
      var row := r.reply.value;
      && row.rec == Campaign(creatorId, title, description, CategoryArg(category).value, goal, 0, StatusArg(status).value)
      && row.id == s.campaigns.next
      && r.state == CampaignTables(Table(s.campaigns.rows[row.id := row.rec], s.campaigns.next + 1), s.updates)
    ensures ValidTables(s) && r.reply.Ok? ==> r.reply.value.id !in s.campaigns.rows && ValidTables(r.state)
    ensures AllStorable(s.campaigns) ==> AllStorable(r.state.campaigns)
  {
    var cat := CategoryArg(category);
    var st := StatusArg(status);
    if cat.None? || st.None? then Outcome(Err(ValueError(InvalidStatusOrCategory)), s)
    else
      var rec := Campaign(creatorId, title, description, cat.value, goal, 0, st.value);
      if commit != Committed || !StorableCampaign(rec) then
        Outcome(Err(RuntimeError("Could not create a new campaign")), s)
      else
        var (t, id) := Insert(s.campaigns, rec);
        Outcome(Ok(Row(id, rec)), CampaignTables(t, s.updates))
  }

  /** `create_campaign` exactly as written: an omitted status reaches
      `CampaignStatus(None)` and the call is rejected; a given status behaves
      as in the corrected `CreateCampaign`. */
  function CreateCampaignAsWritten(s: CampaignTables, creatorId: Id, title: string, description: string, goal: Cents,
                                   category: Option<string>, status: Option<string>, commit: Commit)
    : (r: Outcome<Result<Row<Campaign>>, CampaignTables>)
    ensures r.reply.Err? ==> r.state == s
    ensures CategoryArg(category).None? || StatusArgAsWritten(status).None? ==>
      r == Outcome(Err(ValueError(InvalidStatusOrCategory)), s)
    ensures r.reply.Ok? <==>
      && CategoryArg(category).Some? && StatusArgAsWritten(status).Some? && commit == Committed
      && |title| <= 80 && FitsNumeric82(goal)
    ensures r.reply.Ok? ==>
      && r.reply.value.rec == Campaign(creatorId, title, description, CategoryArg(category).value, goal, 0, StatusArgAsWritten(status).value)
      && r.reply.value.id == s.campaigns.next
      && r.state == CampaignTables(Table(s.campaigns.rows[s.campaigns.next := r.reply.value.rec], s.campaigns.next + 1), s.updates)
  {
    if StatusArgAsWritten(status).None? then Outcome(Err(ValueError(InvalidStatusOrCategory)), s)
    else CreateCampaign(s, creatorId, title, description, goal, category, status, commit)
  }

  /** `create_campaign(1, "t", "d", 100, category="Arts")`: as written it is
      rejected with nothing stored; with the intended default it creates a
      pending campaign. */
  lemma OmittedStatusCreateRejectedAsWritten(s: CampaignTables)
    ensures CreateCampaignAsWritten(s, 1, "t", "d", 10000, Some("Arts"), None, Committed)
      == Outcome(Err(ValueError(InvalidStatusOrCategory)), s)
    ensures CreateCampaign(s, 1, "t", "d", 10000, Some("Arts"), None, Committed).reply.Ok?
    ensures CreateCampaign(s, 1, "t", "d", 10000, Some("Arts"), None, Committed).reply.value.rec.status == CampaignStatus.Pending
  {
    assert ParseCategory("Arts") == Some(Arts);
  }

  // ---------------------------------------------------------------------
  // delete_campaign, view_campaign_by_campaign_id, view_all_campaigns_by_creator

  function DeleteCampaign(s: CampaignTables, id: Id, commit: Commit): (r: Outcome<Result<string>, CampaignTables>)
    ensures id !in s.campaigns.rows ==> r == Outcome(Ok(NoCampaignFound(id)), s)
    ensures r.reply.Err? ==> r.state == s && id in s.campaigns.rows && commit != Committed
    ensures id in s.campaigns.rows && commit == Committed ==>
      && r.reply == Ok("Campaign with campaign id: " + IntToString(id) + " was deleted successfully")
      && r.state.updates == s.updates
      && r.state.campaigns.rows.Keys == s.campaigns.rows.Keys - {id}
      && (forall k :: k in r.state.campaigns.rows ==> r.state.campaigns.rows[k] == s.campaigns.rows[k])
  {
    if id !in s.campaigns.rows then Outcome(Ok(NoCampaignFound(id)), s)
    else if commit != Committed then
      Outcome(Err(RuntimeError("Could not delete Campaign with campaign id: " + IntToString(id))), s)
    else
      Outcome(Ok("Campaign with campaign id: " + IntToString(id) + " was deleted successfully"),
              CampaignTables(Remove(s.campaigns, id), s.updates))
  }

  function ViewCampaignByCampaignId(t: Table<Campaign>, id: Id): (r: Reply<Row<Campaign>>)
    ensures r.Value? <==> id in t.rows
    ensures r.Value? ==> r.value == Row(id, t.rows[id])
    ensures r.Message? ==> r.text == "No campaign with campaign id: " + IntToString(id) + " was found."
  {
    if id in t.rows then Value(Row(id, t.rows[id]))
    else Message("No campaign with campaign id: " + IntToString(id) + " was found.")
  }

  function ViewAllCampaignsByCreator(t: Table<Campaign>, creatorId: Id): (r: seq<Row<Campaign>>)
    ensures forall i :: 0 <= i < |r| ==> r[i].id in t.rows && t.rows[r[i].id] == r[i].rec && r[i].rec.creatorId == creatorId
    ensures Tables.Valid(t) ==> forall id :: id in t.rows && t.rows[id].creatorId == creatorId ==> Row(id, t.rows[id]) in r
  {
    Select(t, (c: Campaign) => c.creatorId == creatorId)
  }

  // ---------------------------------------------------------------------
  // update_campaign_status, approve_campaign

  function StatusLogEntry(id: Id, before: CampaignStatus, after: CampaignStatus): CampaignUpdate {
    CampaignUpdate(id, [FieldChange("status", StatusField(before), StatusField(after))])
  }

  function UpdateCampaignStatus(s: CampaignTables, id: Id, newStatus: string, commit: Commit)
    : (r: Outcome<Result<Reply<Row<Campaign>>>, CampaignTables>)
    // a missing campaign or an unknown status: a message, nothing changes
    ensures id !in s.campaigns.rows ==> r == Outcome(Ok(Message(NoCampaignFound(id))), s)
    ensures id in s.campaigns.rows && ParseCampaignStatus(newStatus).None? ==>
      r == Outcome(Ok(Message("Invalid status: " + newStatus)), s)
    // the current status: a message and no log entry
    ensures id in s.campaigns.rows && ParseCampaignStatus(newStatus) == Some(s.campaigns.rows[id].status) ==>
      r == Outcome(Ok(Message("No status change detected.")), s)
    // anything that does not end in the updated row changes nothing
    ensures !(r.reply.Ok? && r.reply.value.Value?) ==> r.state == s
    // a real change: the status is set and exactly one log entry is appended
    ensures r.reply.Ok? && r.reply.value.Value? <==>
      id in s.campaigns.rows && ParseCampaignStatus(newStatus).Some? &&
      ParseCampaignStatus(newStatus).value != s.campaigns.rows[id].status && commit == Committed
    ensures r.reply.Ok? && r.reply.value.Value? ==>
      var old_ := s.campaigns.rows[id];
      var new_ := ParseCampaignStatus(newStatus).value;
      && r.reply.value.value == Row(id, old_.(status := new_))
      && r.state.campaigns == Table(s.campaigns.rows[id := old_.(status := new_)], s.campaigns.next)
      && r.state.updates == Table(s.updates.rows[s.updates.next := StatusLogEntry(id, old_.status, new_)], s.updates.next + 1)
    ensures ValidTables(s) ==> ValidTables(r.state) && |r.state.updates.rows| <= |s.updates.rows| + 1
    ensures AllStorable(s.campaigns) ==> AllStorable(r.state.campaigns)
  {
    if id !in s.campaigns.rows then Outcome(Ok(Message(NoCampaignFound(id))), s)
    else
      var parsed := ParseCampaignStatus(newStatus);
      if parsed.None? then Outcome(Ok(Message("Invalid status: " + newStatus)), s)
      else
        var campaign := s.campaigns.rows[id];
        if campaign.status == parsed.value then Outcome(Ok(Message("No status change detected.")), s)
        else if commit != Committed then
          Outcome(Err(RuntimeError("Failed to update campaign status or log update")), s)
        else
          var updated := campaign.(status := parsed.value);
          var (log, _) := Insert(s.updates, StatusLogEntry(id, campaign.status, parsed.value));
          Outcome(Ok(Value(Row(id, updated))), CampaignTables(Put(s.campaigns, id, updated), log))
  }

  /** approve_campaign(id) is update_campaign_status(id, CampaignStatus.ACTIVE). */
  function ApproveCampaign(s: CampaignTables, id: Id, commit: Commit): (r: Outcome<Result<Reply<Row<Campaign>>>, CampaignTables>)
    ensures r == UpdateCampaignStatus(s, id, "active", commit)
    ensures id in s.campaigns.rows && s.campaigns.rows[id].status != CampaignStatus.Active && commit == Committed ==>
      r.state.campaigns.rows[id].status == CampaignStatus.Active
  {
    UpdateCampaignStatus(s, id, CampaignStatusValue(CampaignStatus.Active), commit)
  }

  // ---------------------------------------------------------------------
  // update_campaign: keyword arguments applied one by one, with a diff

  /** One keyword argument: an allow-listed field with its new value, or any
      other key. */
  datatype CampaignKwarg =
    | Title(title: string)
    | Description(description: string)
    | Category(category: string)
    | GoalAmount(goal: Cents)
    | RaisedAmount(raised: Cents)
    | Other(key: string)

  const AllowedCampaignFields: set<string> := {"title", "description", "category", "goal_amount", "raised_amount"}

  function KwargKey(kw: CampaignKwarg): string {
    match kw
    case Title(_) => "title"
    case Description(_) => "description"
    case Category(_) => "category"
    case GoalAmount(_) => "goal_amount"
    case RaisedAmount(_) => "raised_amount"
    case Other(key) => key
  }

  /** Keyword arguments as Python delivers them: distinct keys, and `Other`
      only for keys outside the allow-list. */
  ghost predicate WellFormedKwargs(kwargs: seq<CampaignKwarg>) {
    && (forall i :: 0 <= i < |kwargs| && kwargs[i].Other? ==> kwargs[i].key !in AllowedCampaignFields)
    && (forall i, j :: 0 <= i < j < |kwargs| ==> KwargKey(kwargs[i]) != KwargKey(kwargs[j]))
  }

  /** `getattr(campaign, field)` for an allow-listed field. */
  function FieldOf(c: Campaign, field: string): FieldValue {
    if field == "title" then TextField(c.title)
    else if field == "description" then TextField(c.description)
    else if field == "category" then CategoryField(c.category)
    else if field == "goal_amount" then AmountField(c.goalAmount)
    else AmountField(c.raisedAmount)
  }

  /** `changes[field] = {...}` only when the value differs. */
  function Diff(field: string, before: FieldValue, after: FieldValue): seq<FieldChange> {
    if before != after then [FieldChange(field, before, after)] else []
  }

  datatype Edit = Edit(campaign: Campaign, changes: seq<FieldChange>)

  /** One pass of the loop body: set the field, note a change. */
  function ApplyKwarg(c: Campaign, kw: CampaignKwarg): Result<Edit> {
    match kw
    case Other(_) => Ok(Edit(c, []))
    case Title(v) => Ok(Edit(c.(title := v), Diff("title", TextField(c.title), TextField(v))))
    case Description(v) =>
      Ok(Edit(c.(description := v), Diff("description", TextField(c.description), TextField(v))))
    case Category(v) =>
      (match ParseCategory(v)
       case None => Err(ValueError("Invalid Category"))
       case Some(cat) => Ok(Edit(c.(category := cat), Diff("category", CategoryField(c.category), CategoryField(cat)))))
    case GoalAmount(v) =>
      Ok(Edit(c.(goalAmount := v), Diff("goal_amount", AmountField(c.goalAmount), AmountField(v))))
    case RaisedAmount(v) =>
      Ok(Edit(c.(raisedAmount := v), Diff("raised_amount", AmountField(c.raisedAmount), AmountField(v))))
  }

  /** The loop over `kwargs.items()`, continuing from campaign `c` with the
      changes collected so far. */
  function ApplyKwargs(c: Campaign, changes: seq<FieldChange>, kwargs: seq<CampaignKwarg>): Result<Edit>
    decreases |kwargs|
  {
    if kwargs == [] then Ok(Edit(c, changes))
    else
      match ApplyKwarg(c, kwargs[0])
      case Err(e) => Err(e)
      case Ok(step) => ApplyKwargs(step.campaign, changes + step.changes, kwargs[1..])
  }

  /** The fields named in a list of changes. */
  function ChangedFields(changes: seq<FieldChange>): set<string> {
    set i | 0 <= i < |changes| :: changes[i].field
  }

  /** `changes` is the exact diff between `c0` and `c`: one entry per
      allow-listed field whose value differs, recording the old and the new
      value, and nothing else changed. */
  ghost predicate ExactDiff(c0: Campaign, c: Campaign, changes: seq<FieldChange>) {
    && c.creatorId == c0.creatorId && c.status == c0.status
    && (forall i :: 0 <= i < |changes| ==>
          && changes[i].field in AllowedCampaignFields
          && changes[i].before == FieldOf(c0, changes[i].field)
          && changes[i].after == FieldOf(c, changes[i].field)
          && changes[i].before != changes[i].after)
    && (forall i, j :: 0 <= i < j < |changes| ==> changes[i].field != changes[j].field)
    && (forall f :: f in AllowedCampaignFields && FieldOf(c0, f) != FieldOf(c, f) ==> f in ChangedFields(changes))
  }

  /** The loop invariant behind ExactDiff: the keys handled so far are `done`,
      every other allow-listed field still has its original value, and the
      changes so far are the exact diff on the handled fields. */
  ghost predicate DiffSoFar(c0: Campaign, c: Campaign, changes: seq<FieldChange>, done: set<string>) {
    && c.creatorId == c0.creatorId && c.status == c0.status
    && (forall f :: f in AllowedCampaignFields && f !in done ==> FieldOf(c, f) == FieldOf(c0, f))
    && (forall i :: 0 <= i < |changes| ==>
          && changes[i].field in AllowedCampaignFields && changes[i].field in done
          && changes[i].before == FieldOf(c0, changes[i].field)
          && changes[i].after == FieldOf(c, changes[i].field)
          && changes[i].before != changes[i].after)
    && (forall i, j :: 0 <= i < j < |changes| ==> changes[i].field != changes[j].field)
    && (forall f :: f in AllowedCampaignFields && FieldOf(c0, f) != FieldOf(c, f) ==> f in ChangedFields(changes))
  }

  lemma FieldOfUpdate(c: Campaign, kw: CampaignKwarg, e: Edit)
    requires ApplyKwarg(c, kw) == Ok(e) && !kw.Other?
    ensures forall f :: f in AllowedCampaignFields && f != KwargKey(kw) ==> FieldOf(e.campaign, f) == FieldOf(c, f)
    ensures e.changes == Diff(KwargKey(kw), FieldOf(c, KwargKey(kw)), FieldOf(e.campaign, KwargKey(kw)))
    ensures e.campaign.creatorId == c.creatorId && e.campaign.status == c.status
  {
  }

  /** One loop pass keeps DiffSoFar, with the pass's key added to `done`. */
  lemma {:induction false} DiffStep(c0: Campaign, c: Campaign, changes: seq<FieldChange>, done: set<string>,
                                    kw: CampaignKwarg, e: Edit)
    requires DiffSoFar(c0, c, changes, done)
    requires KwargKey(kw) !in done
    requires kw.Other? ==> kw.key !in AllowedCampaignFields
    requires ApplyKwarg(c, kw) == Ok(e)
    ensures DiffSoFar(c0, e.campaign, changes + e.changes, done + {KwargKey(kw)})
  {
    var key := KwargKey(kw);
    var all := changes + e.changes;
    if kw.Other? {
      assert all == changes;
    } else {
      FieldOfUpdate(c, kw, e);
      assert key in AllowedCampaignFields;
      assert FieldOf(c, key) == FieldOf(c0, key);
      forall i | 0 <= i < |changes| ensures changes[i].field != key && changes[i].after == FieldOf(e.campaign, changes[i].field) {
      }
      assert forall i :: 0 <= i < |all| ==> all[i].field in AllowedCampaignFields && all[i].field in done + {key};
      forall f | f in AllowedCampaignFields && FieldOf(c0, f) != FieldOf(e.campaign, f)
        ensures f in ChangedFields(all)
      {
        if f == key {
          assert all[|changes|].field == key;
        } else {
          assert f in ChangedFields(changes);
          var i :| 0 <= i < |changes| && changes[i].field == f;
          assert all[i].field == f;
        }
      }
    }
  }

  lemma {:induction false} DiffFold(c0: Campaign, c: Campaign, changes: seq<FieldChange>, done: set<string>,
                                    rest: seq<CampaignKwarg>)
    requires DiffSoFar(c0, c, changes, done)
    requires forall i :: 0 <= i < |rest| ==> KwargKey(rest[i]) !in done
    requires forall i :: 0 <= i < |rest| && rest[i].Other? ==> rest[i].key !in AllowedCampaignFields
    requires forall i, j :: 0 <= i < j < |rest| ==> KwargKey(rest[i]) != KwargKey(rest[j])
    ensures ApplyKwargs(c, changes, rest).Ok? ==>
      exists d :: DiffSoFar(c0, ApplyKwargs(c, changes, rest).value.campaign, ApplyKwargs(c, changes, rest).value.changes, d)
    decreases |rest|
  {
    if rest == [] {
      assert DiffSoFar(c0, c, changes, done);
    } else {
      var step := ApplyKwarg(c, rest[0]);
      if step.Ok? {
        DiffStep(c0, c, changes, done, rest[0], step.value);
        var done' := done + {KwargKey(rest[0])};
        forall i | 0 <= i < |rest[1..]| ensures KwargKey(rest[1..][i]) !in done' {
          assert rest[1..][i] == rest[i + 1];
        }
        DiffFold(c0, step.value.campaign, changes + step.value.changes, done', rest[1..]);
      }
    }
  }

  /** update_campaign's diff is exact: a field is recorded only, and always,
      when its new value differs from the old one; the record holds both
      values; fields outside the allow-list never change. */
  lemma UpdateDiffIsExact(c0: Campaign, kwargs: seq<CampaignKwarg>)
    requires WellFormedKwargs(kwargs)
    ensures ApplyKwargs(c0, [], kwargs).Ok? ==>
      ExactDiff(c0, ApplyKwargs(c0, [], kwargs).value.campaign, ApplyKwargs(c0, [], kwargs).value.changes)
  {
    assert DiffSoFar(c0, c0, [], {});
    DiffFold(c0, c0, [], {}, kwargs);
  }

  /** With no recorded change the campaign is exactly as before. */
  lemma NoChangesMeansUnchanged(c0: Campaign, kwargs: seq<CampaignKwarg>)
    requires WellFormedKwargs(kwargs)
    requires ApplyKwargs(c0, [], kwargs).Ok?
    ensures ApplyKwargs(c0, [], kwargs).value.changes == [] <==> ApplyKwargs(c0, [], kwargs).value.campaign == c0
  {
    UpdateDiffIsExact(c0, kwargs);
    var e := ApplyKwargs(c0, [], kwargs).value;
    if e.changes == [] {
      var c := e.campaign;
      assert FieldOf(c0, "title") == FieldOf(c, "title");
      assert FieldOf(c0, "description") == FieldOf(c, "description");
      assert FieldOf(c0, "category") == FieldOf(c, "category");
      assert FieldOf(c0, "goal_amount") == FieldOf(c, "goal_amount");
      assert FieldOf(c0, "raised_amount") == FieldOf(c, "raised_amount");
    } else {
      assert e.changes[0].before != e.changes[0].after;
    }
  }

  function WithoutOthers(kwargs: seq<CampaignKwarg>): (r: seq<CampaignKwarg>)
    ensures forall i :: 0 <= i < |r| ==> !r[i].Other?
  {
    if kwargs == [] then []
    else (if kwargs[0].Other? then [] else [kwargs[0]]) + WithoutOthers(kwargs[1..])
  }

  /** Keys outside the allow-list are ignored: dropping them changes nothing. */
  lemma {:induction false} OtherKeysIgnored(c: Campaign, changes: seq<FieldChange>, kwargs: seq<CampaignKwarg>)
    ensures ApplyKwargs(c, changes, kwargs) == ApplyKwargs(c, changes, WithoutOthers(kwargs))
    decreases |kwargs|
  {
    if kwargs != [] {
      OtherKeysIgnored(c, changes, kwargs[1..]);
      if kwargs[0].Other? {
        assert changes + [] == changes;
        assert WithoutOthers(kwargs) == WithoutOthers(kwargs[1..]);
      } else {
        var w := WithoutOthers(kwargs);
        assert w[0] == kwargs[0] && w[1..] == WithoutOthers(kwargs[1..]);
        match ApplyKwarg(c, kwargs[0])
        case Err(_) =>
        case Ok(step) => OtherKeysIgnored(step.campaign, changes + step.changes, kwargs[1..]);
      }
    }
  }

  function UpdateCampaign(s: CampaignTables, id: Id, kwargs: seq<CampaignKwarg>, commit: Commit)
    : (r: Outcome<Result<Reply<Row<Campaign>>>, CampaignTables>)
    requires WellFormedKwargs(kwargs)
    ensures id !in s.campaigns.rows ==> r == Outcome(Ok(Message(NoCampaignFound(id))), s)
    ensures id in s.campaigns.rows && ApplyKwargs(s.campaigns.rows[id], [], kwargs).Err? ==>
      r == Outcome(Err(ApplyKwargs(s.campaigns.rows[id], [], kwargs).error), s)
    // nothing differs: a message and no log row
    ensures (id in s.campaigns.rows && ApplyKwargs(s.campaigns.rows[id], [], kwargs).Ok?
             && ApplyKwargs(s.campaigns.rows[id], [], kwargs).value.changes == []) ==>
      r == Outcome(Ok(Message("No changes made to the campaign.")), s)
    // something differs: it is written exactly when the commit goes through and the row fits its columns
    ensures (id in s.campaigns.rows && ApplyKwargs(s.campaigns.rows[id], [], kwargs).Ok?
             && ApplyKwargs(s.campaigns.rows[id], [], kwargs).value.changes != []) ==>
      var e := ApplyKwargs(s.campaigns.rows[id], [], kwargs).value;
      if commit == Committed && StorableCampaign(e.campaign) then r.reply == Ok(Value(Row(id, e.campaign)))
      else r == Outcome(Err(RuntimeError("Failed to update campaign or log update")), s)
    ensures !(r.reply.Ok? && r.reply.value.Value?) ==> r.state == s
    // something differs: the row is rewritten and exactly one log row records the diff
    ensures r.reply.Ok? && r.reply.value.Value? ==>
      && id in s.campaigns.rows
      && var e := ApplyKwargs(s.campaigns.rows[id], [], kwargs).value;
      && e.changes != [] && commit == Committed && StorableCampaign(e.campaign)
      && r.reply.value.value == Row(id, e.campaign)
      && r.state.campaigns == Table(s.campaigns.rows[id := e.campaign], s.campaigns.next)
      && r.state.updates == Table(s.updates.rows[s.updates.next := CampaignUpdate(id, e.changes)], s.updates.next + 1)
    ensures ValidTables(s) ==> ValidTables(r.state)
    ensures AllStorable(s.campaigns) ==> AllStorable(r.state.campaigns)
  {
    if id !in s.campaigns.rows then Outcome(Ok(Message(NoCampaignFound(id))), s)
    else
      match ApplyKwargs(s.campaigns.rows[id], [], kwargs)
      case Err(e) => Outcome(Err(e), s)
      case Ok(edit) =>
        if edit.changes == [] then Outcome(Ok(Message("No changes made to the campaign.")), s)
        else if commit != Committed || !StorableCampaign(edit.campaign) then
          Outcome(Err(RuntimeError("Failed to update campaign or log update")), s)
        else
          var (log, _) := Insert(s.updates, CampaignUpdate(id, edit.changes));
          Outcome(Ok(Value(Row(id, edit.campaign))), CampaignTables(Put(s.campaigns, id, edit.campaign), log))
  }

  /** update_campaign never touches the creator or the status, and leaves every
      other campaign as it was. */
  lemma UpdateCampaignTouchesOnlyAllowed(s: CampaignTables, id: Id, kwargs: seq<CampaignKwarg>, commit: Commit)
    requires WellFormedKwargs(kwargs)
    ensures forall k :: k in s.campaigns.rows && k != id ==>
      k in UpdateCampaign(s, id, kwargs, commit).state.campaigns.rows &&
      UpdateCampaign(s, id, kwargs, commit).state.campaigns.rows[k] == s.campaigns.rows[k]
    ensures id in s.campaigns.rows ==>
      var c := UpdateCampaign(s, id, kwargs, commit).state.campaigns.rows[id];
      c.creatorId == s.campaigns.rows[id].creatorId && c.status == s.campaigns.rows[id].status
  {
    if id in s.campaigns.rows {
      UpdateDiffIsExact(s.campaigns.rows[id], kwargs);
    }
  }

  /** Not kept non-negative: update_campaign stores whatever raised amount it is
      given. */
  lemma RaisedAmountCanGoNegative(s: CampaignTables, id: Id)
    requires id in s.campaigns.rows && StorableCampaign(s.campaigns.rows[id])
    requires s.campaigns.rows[id].raisedAmount != -1
    ensures UpdateCampaign(s, id, [RaisedAmount(-1)], Committed).state.campaigns.rows[id].raisedAmount == -1
  {
    var c := s.campaigns.rows[id];
    var kwargs := [RaisedAmount(-1)];
    assert kwargs[1..] == [];
    var d := Diff("raised_amount", AmountField(c.raisedAmount), AmountField(-1));
    assert ApplyKwarg(c, kwargs[0]) == Ok(Edit(c.(raisedAmount := -1), d));
    assert [] + d == d;
    assert ApplyKwargs(c, [], kwargs) == Ok(Edit(c.(raisedAmount := -1), [FieldChange("raised_amount", AmountField(c.raisedAmount), AmountField(-1))]));
  }

  // ---------------------------------------------------------------------
  // Filters

  /** `title.ilike(f"%{title}%")`. */
  predicate TitleMatches(c: Campaign, query: string) {
    ILike(c.title, Surround(query))
  }

  function SearchCampaignByTitle(t: Table<Campaign>, query: string): (r: Reply<seq<Row<Campaign>>>)
    ensures r.Value? ==> r.value != [] && forall i :: 0 <= i < |r.value| ==>
      r.value[i].id in t.rows && t.rows[r.value[i].id] == r.value[i].rec && TitleMatches(r.value[i].rec, query)
    ensures Tables.Valid(t) && r.Value? ==> forall id :: id in t.rows && TitleMatches(t.rows[id], query) ==> Row(id, t.rows[id]) in r.value
    ensures Tables.Valid(t) ==> (r.Message? <==> forall id :: id in t.rows ==> !TitleMatches(t.rows[id], query))
    ensures r.Message? ==> r.text == "No campaigns found matching title: " + query
  {
    var found := Select(t, (c: Campaign) => TitleMatches(c, query));
    if found == [] then Message("No campaigns found matching title: " + query)
    else assert found[0].id in t.rows; Value(found)
  }

  /** For a query without LIKE wildcards the search is case-insensitive
      substring containment. */
  lemma SearchByTitleIsSubstring(t: Table<Campaign>, query: string)
    requires Tables.Valid(t) && NoWildcards(query)
    ensures SearchCampaignByTitle(t, query).Value? ==>
      forall i :: 0 <= i < |SearchCampaignByTitle(t, query).value| ==>
        Contains(Lower(SearchCampaignByTitle(t, query).value[i].rec.title), Lower(query))
    ensures forall id :: id in t.rows && Contains(Lower(t.rows[id].title), Lower(query)) ==>
      SearchCampaignByTitle(t, query).Value? && Row(id, t.rows[id]) in SearchCampaignByTitle(t, query).value
  {
    var r := SearchCampaignByTitle(t, query);
    if r.Value? {
      forall i | 0 <= i < |r.value| ensures Contains(Lower(r.value[i].rec.title), Lower(query)) {
        ILikeSurroundIsContains(r.value[i].rec.title, query);
      }
    }
    forall id | id in t.rows && Contains(Lower(t.rows[id].title), Lower(query))
      ensures r.Value? && Row(id, t.rows[id]) in r.value
    {
      ILikeSurroundIsContains(t.rows[id].title, query);
    }
  }

  function ViewCampaignsByCategory(t: Table<Campaign>, category: string): (r: Reply<seq<Row<Campaign>>>)
    ensures ParseCategory(category).None? ==> r == Message("Invalid category: " + category)
    ensures r.Value? ==> ParseCategory(category).Some? && r.value != [] && forall i :: 0 <= i < |r.value| ==>
      r.value[i].id in t.rows && t.rows[r.value[i].id] == r.value[i].rec && r.value[i].rec.category == ParseCategory(category).value
    ensures Tables.Valid(t) && ParseCategory(category).Some? ==>
      var cat := ParseCategory(category).value;
      && (r.Value? <==> exists id :: id in t.rows && t.rows[id].category == cat)
      && (r.Message? ==> r.text == "No campaigns found for category: " + CategoryValue(cat))
      && (r.Value? ==> forall id :: id in t.rows && t.rows[id].category == cat ==> Row(id, t.rows[id]) in r.value)
  {
    match ParseCategory(category)
    case None => Message("Invalid category: " + category)
    case Some(cat) =>
      var found := Select(t, (c: Campaign) => c.category == cat);
      if found == [] then Message("No campaigns found for category: " + CategoryValue(cat))
      else assert found[0].id in t.rows; Value(found)
  }

  function ViewAllCampaigns(t: Table<Campaign>): (r: seq<Row<Campaign>>)
    ensures forall i :: 0 <= i < |r| ==> r[i].id in t.rows && t.rows[r[i].id] == r[i].rec
    ensures Tables.Valid(t) ==> forall id :: id in t.rows ==> Row(id, t.rows[id]) in r
  {
    Select(t, All<Campaign>)
  }

  /** Every campaign is listed once. */
  lemma ViewAllCampaignsCount(t: Table<Campaign>)
    requires Tables.Valid(t)
    ensures |ViewAllCampaigns(t)| == |t.rows|
  {
    SelectAllCount(t, All<Campaign>);
  }

  function ViewAllActiveCampaigns(t: Table<Campaign>): (r: seq<Row<Campaign>>)
    ensures forall i :: 0 <= i < |r| ==> r[i].id in t.rows && t.rows[r[i].id] == r[i].rec && r[i].rec.status == CampaignStatus.Active
    ensures Tables.Valid(t) ==> forall id :: id in t.rows && t.rows[id].status == CampaignStatus.Active ==> Row(id, t.rows[id]) in r
  {
    Select(t, (c: Campaign) => c.status == CampaignStatus.Active)
  }

  function ViewAllCompletedCampaigns(t: Table<Campaign>): (r: seq<Row<Campaign>>)
    ensures forall i :: 0 <= i < |r| ==> r[i].id in t.rows && t.rows[r[i].id] == r[i].rec && r[i].rec.status == CampaignStatus.Completed
    ensures Tables.Valid(t) ==> forall id :: id in t.rows && t.rows[id].status == CampaignStatus.Completed ==> Row(id, t.rows[id]) in r
  {
    Select(t, (c: Campaign) => c.status == CampaignStatus.Completed)
  }

  // ---------------------------------------------------------------------
  // view_all_campaigns_paginated

  /** `if category:` — only a non-empty string filters. */
  predicate Truthy(arg: Option<string>) { arg.Some? && arg.value != "" }

  predicate PageFilter(c: Campaign, category: Option<CampaignCategory>, status: Option<CampaignStatus>) {
    (category.None? || c.category == category.value) && (status.None? || c.status == status.value)
  }

  /** Flask-SQLAlchemy with error_out=False: a page below 1 becomes 1, a page
      size below 1 becomes the default 20. */
  function NormalPage(page: int): nat { if page < 1 then 1 else page }
  function NormalPerPage(perPage: int): nat { if perPage < 1 then 20 else perPage }

  function Min(a: int, b: int): int { if a <= b then a else b }

  function PageSlice<T>(rows: seq<T>, page: nat, perPage: nat): (r: seq<T>)
    requires page >= 1
    ensures |r| <= perPage
    ensures |r| == if (page - 1) * perPage >= |rows| then 0 else Min(perPage, |rows| - (page - 1) * perPage)
    ensures forall i :: 0 <= i < |r| ==> (page - 1) * perPage + i < |rows| && r[i] == rows[(page - 1) * perPage + i]
  {
    var start := (page - 1) * perPage;
    if start >= |rows| then []
    else if start + perPage <= |rows| then rows[start..start + perPage]
    else rows[start..]
  }

  /** The filter a given, non-empty argument adds; `None` adds none. */
  function CategoryFilter(category: Option<string>): Option<CampaignCategory> {
    if Truthy(category) then ParseCategory(category.value) else None
  }

  function StatusFilter(status: Option<string>): Option<CampaignStatus> {
    if Truthy(status) then ParseCampaignStatus(status.value) else None
  }

  /** The rows the paginated query pages through: exactly the campaigns that
      pass both filters. */
  function PageRows(t: Table<Campaign>, category: Option<CampaignCategory>, status: Option<CampaignStatus>)
    : (r: seq<Row<Campaign>>)
    ensures forall i :: 0 <= i < |r| ==> r[i].id in t.rows && t.rows[r[i].id] == r[i].rec && PageFilter(r[i].rec, category, status)
    ensures Tables.Valid(t) ==> forall id :: id in t.rows && PageFilter(t.rows[id], category, status) ==> Row(id, t.rows[id]) in r
  {
    Select(t, (c: Campaign) => PageFilter(c, category, status))
  }

  function ViewAllCampaignsPaginated(t: Table<Campaign>, page: int, perPage: int, category: Option<string>, status: Option<string>)
    : (r: Result<seq<Row<Campaign>>>)
    ensures Truthy(category) && ParseCategory(category.value).None? ==>
      r == Err(ValueError(NotAMember(category.value, "CampaignCategory")))
    ensures !(Truthy(category) && ParseCategory(category.value).None?) && Truthy(status) && ParseCampaignStatus(status.value).None? ==>
      r == Err(ValueError(NotAMember(status.value, "CampaignStatus")))
    ensures r.Ok? <==> (Truthy(category) ==> ParseCategory(category.value).Some?) && (Truthy(status) ==> ParseCampaignStatus(status.value).Some?)
    // the page, after a page below 1 becomes 1 and a size below 1 becomes 20
    ensures r.Ok? ==> r.value == PageSlice(PageRows(t, CategoryFilter(category), StatusFilter(status)), NormalPage(page), NormalPerPage(perPage))
    ensures r.Ok? ==> |r.value| <= NormalPerPage(perPage)
    ensures r.Ok? ==> forall i :: 0 <= i < |r.value| ==>
      && r.value[i].id in t.rows && t.rows[r.value[i].id] == r.value[i].rec
      && (Truthy(category) ==> Some(r.value[i].rec.category) == ParseCategory(category.value))
      && (Truthy(status) ==> Some(r.value[i].rec.status) == ParseCampaignStatus(status.value))
  {
    var cat := CategoryFilter(category);
    if Truthy(category) && cat.None? then Err(ValueError(NotAMember(category.value, "CampaignCategory")))
    else
      var st := StatusFilter(status);
      if Truthy(status) && st.None? then Err(ValueError(NotAMember(status.value, "CampaignStatus")))
      else Ok(PageSlice(PageRows(t, cat, st), NormalPage(page), NormalPerPage(perPage)))
  }

  /** A page number below 1 gives the first page. */
  lemma PageBelowOneIsFirst(t: Table<Campaign>, page: int, perPage: int, category: Option<string>, status: Option<string>)
    requires page < 1
    ensures ViewAllCampaignsPaginated(t, page, perPage, category, status) == ViewAllCampaignsPaginated(t, 1, perPage, category, status)
  {
  }

  /** The first page of a size no smaller than the number of matching rows
      holds every matching campaign. */
  lemma FirstPageHoldsAll(t: Table<Campaign>, perPage: int, category: Option<string>, status: Option<string>)
    requires Tables.Valid(t)
    requires |PageRows(t, CategoryFilter(category), StatusFilter(status))| <= NormalPerPage(perPage)
    requires ViewAllCampaignsPaginated(t, 1, perPage, category, status).Ok?
    ensures forall id :: id in t.rows && PageFilter(t.rows[id], CategoryFilter(category), StatusFilter(status)) ==>
      Row(id, t.rows[id]) in ViewAllCampaignsPaginated(t, 1, perPage, category, status).value
  {
    var rows := PageRows(t, CategoryFilter(category), StatusFilter(status));
    assert PageSlice(rows, 1, NormalPerPage(perPage)) == rows;
  }
}

/** The same helpers as methods on the shared database: each changes only the
    tables it names, exactly as its model function says. */
module CampaignHelper {

  import opened Outcomes
  import opened Tables
  import opened Models
  import opened Text
  import opened Database
  import M = CampaignModel

  method CreateCampaign(db: Db, creatorId: Id, title: string, description: string, goal: Cents,
                        category: Option<string>, status: Option<string>, commit: Commit)
    returns (r: Result<Row<Campaign>>)
    requires db.Valid()
    modifies db`campaigns
    ensures db.Valid()
    ensures Outcome(r, M.CampaignTables(db.campaigns, db.updates))
         == M.CreateCampaign(M.CampaignTables(old(db.campaigns), db.updates), creatorId, title, description, goal, category, status, commit)
  {
    var cat := M.CategoryArg(category);
    var st := M.StatusArg(status);
    if cat.None? || st.None? {
      return Err(ValueError(M.InvalidStatusOrCategory));
    }
    var campaign := Campaign(creatorId, title, description, cat.value, goal, 0, st.value);
    if commit != Committed || !StorableCampaign(campaign) {
      return Err(RuntimeError("Could not create a new campaign"));
    }
    var id := db.campaigns.next;
    db.campaigns := Table(db.campaigns.rows[id := campaign], id + 1);
    r := Ok(Row(id, campaign));
  }

  method DeleteCampaign(db: Db, id: Id, commit: Commit) returns (r: Result<string>)
    requires db.Valid()
    modifies db`campaigns
    ensures db.Valid()
    ensures Outcome(r, M.CampaignTables(db.campaigns, db.updates))
         == M.DeleteCampaign(M.CampaignTables(old(db.campaigns), db.updates), id, commit)
  {
    if id !in db.campaigns.rows {
      return Ok(M.NoCampaignFound(id));
    }
    if commit != Committed {
      return Err(RuntimeError("Could not delete Campaign with campaign id: " + IntToString(id)));
    }
    db.campaigns := Remove(db.campaigns, id);
    r := Ok("Campaign with campaign id: " + IntToString(id) + " was deleted successfully");
  }

  method UpdateCampaignStatus(db: Db, id: Id, newStatus: string, commit: Commit)
    returns (r: Result<Reply<Row<Campaign>>>)
    requires db.Valid()
    modifies db`campaigns, db`updates
    ensures db.Valid()
    ensures Outcome(r, M.CampaignTables(db.campaigns, db.updates))
         == M.UpdateCampaignStatus(M.CampaignTables(old(db.campaigns), old(db.updates)), id, newStatus, commit)
  {
    if id !in db.campaigns.rows {
      return Ok(Message(M.NoCampaignFound(id)));
    }
    var campaign := db.campaigns.rows[id];
    var parsed := ParseCampaignStatus(newStatus);
    if parsed.None? {
      return Ok(Message("Invalid status: " + newStatus));
    }
    var oldStatus := campaign.status;
    if oldStatus == parsed.value {
      return Ok(Message("No status change detected."));
    }
    if commit != Committed {
      return Err(RuntimeError("Failed to update campaign status or log update"));
    }
    campaign := campaign.(status := parsed.value);
    db.campaigns := Put(db.campaigns, id, campaign);
    var logId := db.updates.next;
    db.updates := Table(db.updates.rows[logId := M.StatusLogEntry(id, oldStatus, parsed.value)], logId + 1);
    r := Ok(Value(Row(id, campaign)));
  }

  method ApproveCampaign(db: Db, id: Id, commit: Commit) returns (r: Result<Reply<Row<Campaign>>>)
    requires db.Valid()
    modifies db`campaigns, db`updates
    ensures db.Valid()
    ensures Outcome(r, M.CampaignTables(db.campaigns, db.updates))
         == M.ApproveCampaign(M.CampaignTables(old(db.campaigns), old(db.updates)), id, commit)
  {
    r := UpdateCampaignStatus(db, id, CampaignStatusValue(CampaignStatus.Active), commit);
  }

  /** The `for field, value in kwargs.items()` loop of update_campaign. */
  method ApplyCampaignKwargs(campaign: Campaign, kwargs: seq<M.CampaignKwarg>) returns (r: Result<M.Edit>)
    ensures r == M.ApplyKwargs(campaign, [], kwargs)
  {
    var current := campaign;
    var changes: seq<FieldChange> := [];
    var i := 0;
    while i < |kwargs|
      invariant 0 <= i <= |kwargs|
      invariant M.ApplyKwargs(current, changes, kwargs[i..]) == M.ApplyKwargs(campaign, [], kwargs)
    {
      assert kwargs[i..][0] == kwargs[i] && kwargs[i..][1..] == kwargs[i + 1..];
      match kwargs[i] {
        case Other(_) =>
          assert changes + [] == changes;
        case Title(v) =>
          changes := changes + M.Diff("title", TextField(current.title), TextField(v));
          current := current.(title := v);
        case Description(v) =>
          changes := changes + M.Diff("description", TextField(current.description), TextField(v));
          current := current.(description := v);
        case Category(v) =>
          var parsed := ParseCategory(v);
          if parsed.None? {
            return Err(ValueError("Invalid Category"));
          }
          changes := changes + M.Diff("category", CategoryField(current.category), CategoryField(parsed.value));
          current := current.(category := parsed.value);
        case GoalAmount(v) =>
          changes := changes + M.Diff("goal_amount", AmountField(current.goalAmount), AmountField(v));
          current := current.(goalAmount := v);
        case RaisedAmount(v) =>
          changes := changes + M.Diff("raised_amount", AmountField(current.raisedAmount), AmountField(v));
          current := current.(raisedAmount := v);
      }
      i := i + 1;
    }
    r := Ok(M.Edit(current, changes));
  }

  method UpdateCampaign(db: Db, id: Id, kwargs: seq<M.CampaignKwarg>, commit: Commit)
    returns (r: Result<Reply<Row<Campaign>>>)
    requires M.WellFormedKwargs(kwargs)
    requires db.Valid()
    modifies db`campaigns, db`updates
    ensures db.Valid()
    ensures Outcome(r, M.CampaignTables(db.campaigns, db.updates))
         == M.UpdateCampaign(M.CampaignTables(old(db.campaigns), old(db.updates)), id, kwargs, commit)
  {
    if id !in db.campaigns.rows {
      return Ok(Message(M.NoCampaignFound(id)));
    }
    var edited := ApplyCampaignKwargs(db.campaigns.rows[id], kwargs);
    if edited.Err? {
      return Err(edited.error);
    }
    var edit := edited.value;
    if edit.changes == [] {
      return Ok(Message("No changes made to the campaign."));
    }
    if commit != Committed || !StorableCampaign(edit.campaign) {
      return Err(RuntimeError("Failed to update campaign or log update"));
    }
    db.campaigns := Put(db.campaigns, id, edit.campaign);
    var logId := db.updates.next;
    db.updates := Table(db.updates.rows[logId := CampaignUpdate(id, edit.changes)], logId + 1);
    r := Ok(Value(Row(id, edit.campaign)));
  }
}
