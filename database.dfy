/** The database the helpers share through the global session: one field per
    table. Each helper call is one atomic transition of these fields. */
module Database {

  import opened Tables
  import opened Models

  class Db {
    var users: Table<User>
    var likes: set<Like>
    var campaigns: Table<Campaign>
    var updates: Table<CampaignUpdate>
    var donations: Table<Donation>
    var payments: Table<Payment>
    var comments: Table<Comment>
    var follows: Table<Follow>
    var reviews: Table<AdminReview>

    ghost predicate Valid()
      reads this
    {
      && Tables.Valid(users) && Tables.Valid(campaigns) && Tables.Valid(updates)
      && Tables.Valid(donations) && Tables.Valid(payments) && Tables.Valid(comments)
      && Tables.Valid(follows) && Tables.Valid(reviews)
    }

    /** A freshly created schema: every table empty, every sequence at 1. */
    constructor ()
      ensures Valid()
      ensures users.rows == map[] && campaigns.rows == map[] && updates.rows == map[]
      ensures donations.rows == map[] && payments.rows == map[] && comments.rows == map[]
      ensures follows.rows == map[] && reviews.rows == map[] && likes == {}
    {
      users, campaigns, updates := Empty(), Empty(), Empty();
      donations, payments, comments := Empty(), Empty(), Empty();
      follows, reviews := Empty(), Empty();
      likes := {};
    }
  }
}
