/** The user route (app/api/user/route.ts): the seeded user and the profile update of `PUT`. */
module UserRoute {
  import opened Wrappers
  import opened Types

  /** The user the dashboard starts with. */
  function SeedUser(): User
  {
    User("user1", "Caner Yılmaz", "caner@rasyonet.com", "/placeholder.svg?height=128&width=128",
         Budget(45231.89, 12234.0, 5231.89, 12))
  }

  /** The seeded snapshot does not satisfy the balance equation: 5231.89 + 12234.00 is
      17465.89, not 45231.89. The equation is a post-condition of an accepted transaction,
      not an invariant of every state. */
  lemma SeedIsUnbalanced()
    ensures SeedUser().budget.totalBalance != SeedUser().budget.cash + SeedUser().budget.investments
    ensures SeedUser().budget.cash + SeedUser().budget.investments == 17465.89
  {
  }

  /** The body of `PUT`; `None` is an absent field. */
  datatype UserUpdate = UserUpdate(name: Option<string>, email: Option<string>, imageUrl: Option<string>)

  /** A field of the update replaces the stored one only when it is present and non-empty. */
  function Pick(update: Option<string>, current: string): (r: string)
    ensures update.Some? && update.value != "" ==> r == update.value
    ensures update.None? || update.value == "" ==> r == current
  {
    if update.Some? && update.value != "" then update.value else current
  }

  /** `PUT`: replaces name, email and image each when supplied non-empty; never touches the
      id or any part of the budget. */
  function UpdateUser(user: User, update: UserUpdate): (r: User)
    ensures r.id == user.id && r.budget == user.budget
    ensures r.name == (if update.name.Some? && update.name.value != "" then update.name.value else user.name)
    ensures r.email == (if update.email.Some? && update.email.value != "" then update.email.value else user.email)
    ensures r.imageUrl == (if update.imageUrl.Some? && update.imageUrl.value != "" then update.imageUrl.value else user.imageUrl)
  {
    user.(name := Pick(update.name, user.name),
          email := Pick(update.email, user.email),
          imageUrl := Pick(update.imageUrl, user.imageUrl))
  }

  /** An update with no fields, or only empty ones, leaves the user identical. */
  lemma EmptyUpdateIsIdentity(user: User, update: UserUpdate)
    requires update.name.None? || update.name == Some("")
    requires update.email.None? || update.email == Some("")
    requires update.imageUrl.None? || update.imageUrl == Some("")
    ensures UpdateUser(user, update) == user
  {
  }

  /** Applying the same update twice is the same as applying it once. */
  lemma UpdateIdempotent(user: User, update: UserUpdate)
    ensures UpdateUser(UpdateUser(user, update), update) == UpdateUser(user, update)
  {
  }
}
