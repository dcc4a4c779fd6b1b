/** The records the helpers read and write, their enumerations, the amount
    type, and the password hash. The schema file in the repository is out of
    step with the helpers, so the records carry the fields the helpers use. */
module Models {

  import opened Outcomes
  import opened Tables

  // ---------------------------------------------------------------------
  // Amounts: Numeric(8, 2) columns, held as integer cents.

  type Cents = int

  /** 999999.99, the largest magnitude a Numeric(8, 2) column holds. */
  const MaxNumeric82: Cents := 99_999_999

  predicate FitsNumeric82(c: Cents) { -MaxNumeric82 <= c <= MaxNumeric82 }

  // ---------------------------------------------------------------------
  // Enumerations, each with the value strings that `Enum(value)` accepts.

  datatype CampaignCategory = Technology | Community | Arts | Health | Business

  function CategoryValue(c: CampaignCategory): (s: string)
    ensures ParseCategory(s) == Some(c)
  {
    match c
    case Technology => "Technology"
    case Community => "Community"
    case Arts => "Arts"
    case Health => "Health"
    case Business => "Business"
  }

  /** `CampaignCategory(s)`: only the five value strings name a member. */
  function ParseCategory(s: string): (r: Option<CampaignCategory>)
    ensures r.Some? <==> s in {"Technology", "Community", "Arts", "Health", "Business"}
    ensures r.Some? ==> s == match r.value
      case Technology => "Technology" case Community => "Community" case Arts => "Arts"
      case Health => "Health" case Business => "Business"
  {
    if s == "Technology" then Some(Technology)
    else if s == "Community" then Some(Community)
    else if s == "Arts" then Some(Arts)
    else if s == "Health" then Some(Health)
    else if s == "Business" then Some(Business)
    else None
  }

  datatype CampaignPaymentStatus = Pending | Successful | Failed | Refunded

  function PaymentStatusValue(st: CampaignPaymentStatus): (s: string)
    ensures ParsePaymentStatus(s) == Some(st)
  {
    match st
    case Pending => "pending"
    case Successful => "successful"
    case Failed => "failed"
    case Refunded => "refunded"
  }

  /** `CampaignPaymentStatus(s)`: exactly four value strings are accepted. */
  function ParsePaymentStatus(s: string): (r: Option<CampaignPaymentStatus>)
    ensures r.Some? <==> s in {"pending", "successful", "failed", "refunded"}
  {
    if s == "pending" then Some(CampaignPaymentStatus.Pending)
    else if s == "successful" then Some(CampaignPaymentStatus.Successful)
    else if s == "failed" then Some(CampaignPaymentStatus.Failed)
    else if s == "refunded" then Some(CampaignPaymentStatus.Refunded)
    else None
  }

  /** Campaign lifecycle status. The enumeration is not in the schema file:
      the helpers name `active` and `completed`; `pending` and `rejected` are
      assumed. */
  datatype CampaignStatus = Pending | Active | Rejected | Completed

  function CampaignStatusValue(st: CampaignStatus): (s: string)
    ensures ParseCampaignStatus(s) == Some(st)
  {
    match st
    case Pending => "pending"
    case Active => "active"
    case Rejected => "rejected"
    case Completed => "completed"
  }

  function ParseCampaignStatus(s: string): (r: Option<CampaignStatus>)
    ensures r.Some? <==> s in {"pending", "active", "rejected", "completed"}
  {
    if s == "pending" then Some(CampaignStatus.Pending)
    else if s == "active" then Some(CampaignStatus.Active)
    else if s == "rejected" then Some(CampaignStatus.Rejected)
    else if s == "completed" then Some(CampaignStatus.Completed)
    else None
  }

  /** Donation status, also not in the schema file: the helpers name
      `cancelled`; the other four members are assumed. */
  datatype DonationStatus = Pending | Successful | Failed | Refunded | Cancelled

  function DonationStatusValue(st: DonationStatus): (s: string)
    ensures ParseDonationStatus(s) == Some(st)
  {
    match st
    case Pending => "pending"
    case Successful => "successful"
    case Failed => "failed"
    case Refunded => "refunded"
    case Cancelled => "cancelled"
  }

  function ParseDonationStatus(s: string): (r: Option<DonationStatus>)
    ensures r.Some? <==> s in {"pending", "successful", "failed", "refunded", "cancelled"}
  {
    if s == "pending" then Some(DonationStatus.Pending)
    else if s == "successful" then Some(DonationStatus.Successful)
    else if s == "failed" then Some(DonationStatus.Failed)
    else if s == "refunded" then Some(DonationStatus.Refunded)
    else if s == "cancelled" then Some(DonationStatus.Cancelled)
    else None
  }

  /** User role, not in the schema file: the guards name `admin` and
      `creator`; `donor` is assumed. */
  datatype UserRole = Donor | Creator | Admin

  function UserRoleValue(role: UserRole): (s: string)
    ensures ParseUserRole(s) == Some(role)
  {
    match role
    case Donor => "donor"
    case Creator => "creator"
    case Admin => "admin"
  }

  function ParseUserRole(s: string): (r: Option<UserRole>)
    ensures r.Some? <==> s in {"donor", "creator", "admin"}
  {
    if s == "donor" then Some(Donor)
    else if s == "creator" then Some(Creator)
    else if s == "admin" then Some(Admin)
    else None
  }

  /** Python's message for a value that names no member of an enumeration. */
  function NotAMember(value: string, enumName: string): string {
    "'" + value + "' is not a valid " + enumName
  }

  // ---------------------------------------------------------------------
  // Password hashing. bcrypt is a library outside the model: it is a
  // salted derivation `kdf`, and a stored hash keeps its salt.

  type Kdf = (nat, string) -> string

  datatype PasswordHash = PasswordHash(salt: nat, digest: string)

  /** For each salt, different passwords give different digests. */
  ghost predicate Injective(kdf: Kdf) {
    forall salt, p, q :: kdf(salt, p) == kdf(salt, q) ==> p == q
  }

  /** `checkHashedPassword`: re-derive with the stored salt and compare. */
  predicate CheckHashedPassword(kdf: Kdf, h: PasswordHash, plaintext: string) {
    kdf(h.salt, plaintext) == h.digest
  }

  /** Flask-Bcrypt's refusal of an empty password. */
  const EmptyPassword: string := "Password must be non-empty."

  /** `setPasswordHash`: an empty password raises; otherwise the hash accepts
      the password it was made from and, for an injective derivation, no
      other. */
  function SetPasswordHash(kdf: Kdf, salt: nat, plaintext: string): (r: Result<PasswordHash>)
    ensures r.Err? <==> plaintext == ""
    ensures r.Err? ==> r.error == ValueError(EmptyPassword)
    ensures r.Ok? ==> CheckHashedPassword(kdf, r.value, plaintext)
    ensures r.Ok? && Injective(kdf) ==> forall other :: CheckHashedPassword(kdf, r.value, other) ==> other == plaintext
  {
    if plaintext == "" then Err(ValueError(EmptyPassword)) else Ok(PasswordHash(salt, kdf(salt, plaintext)))
  }

  // ---------------------------------------------------------------------
  // Records. Keys live in the tables (Tables.Row pairs a key with its record).

  datatype User = User(
    username: string,
    email: string,
    passwordHash: PasswordHash,
    role: UserRole,
    profileImage: Option<string>)

  datatype Campaign = Campaign(
    creatorId: Id,
    title: string,
    description: string,
    category: CampaignCategory,
    goalAmount: Cents,
    raisedAmount: Cents,
    status: CampaignStatus)

  /** A value recorded in an update-log diff. */
  datatype FieldValue =
    | TextField(text: string)
    | CategoryField(category: CampaignCategory)
    | AmountField(cents: Cents)
    | StatusField(status: CampaignStatus)

  /** One `{field: {"old": ..., "new": ...}}` entry of a diff. */
  datatype FieldChange = FieldChange(field: string, before: FieldValue, after: FieldValue)

  /** A `CampaignUpdates` row: the campaign and the diff it records. */
  datatype CampaignUpdate = CampaignUpdate(campaignId: Id, content: seq<FieldChange>)

  datatype Donation = Donation(userId: Id, campaignId: Id, amount: Cents, status: DonationStatus)

  datatype Payment = Payment(donationId: Id, amount: Cents, paymentMethod: string, status: CampaignPaymentStatus)

  datatype Comment = Comment(userId: Id, campaignId: Id, content: string, likes: int)

  /** A row of the comment-like association (`user.liked_comments`). */
  datatype Like = Like(userId: Id, commentId: Id)

  datatype Follow = Follow(userId: Id, campaignId: Id)

  datatype AdminReview = AdminReview(adminId: Id, campaignId: Id, decision: string, comments: Option<string>)

  // ---------------------------------------------------------------------
  // Column limits the database enforces at commit: a value that does not
  // fit makes the commit fail.

  predicate StorableUser(u: User) { |u.email| <= 255 }

  predicate StorableCampaign(c: Campaign) {
    |c.title| <= 80 && FitsNumeric82(c.goalAmount) && FitsNumeric82(c.raisedAmount)
  }

  predicate StorableDonation(d: Donation) { FitsNumeric82(d.amount) }

  predicate StorablePayment(p: Payment) { |p.paymentMethod| <= 50 && FitsNumeric82(p.amount) }
}
