/** Plan tokens: what a preview fixes, and the check before anything is changed. */
module PlanTokens {
  import opened Basics

  /** The scope of a plan and the state of database and files it was made for. The source keeps hashes of
      the two states; here they are the states themselves. Times are in seconds. */
  datatype PlanToken<S, D, F> = PlanToken(scope: S, db: D, files: F, expiresAt: Option<int>)

  const LIFETIME := 30 * 60

  function CreateToken<S, D, F>(scope: S, db: D, files: F, now: int): PlanToken<S, D, F> {
    PlanToken(scope, db, files, Some(now + LIFETIME))
  }

  predicate IsValid<S(==), D(==), F(==)>(token: PlanToken<S, D, F>, scope: S, db: D, files: F, now: int) {
    && (token.expiresAt.Some? ==> now <= token.expiresAt.value)
    && token.scope == scope && token.db == db && token.files == files
  }
}
