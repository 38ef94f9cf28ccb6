/** Campaign rows as the pacer's queries see them (prisma/schema.prisma, src/services/classify.ts). */
module Articles {
  import opened Prelude
  import opened Campaigns

  type Id = nat
  type Url = nat

  datatype Article = Article(
    id: Id, url: Url, queue: Queue, status: Status, authority: Option<string>, createdAt: int, claimedAt: Option<int>)

  const PRIORITY_AUTHORITIES := {"Bombay High Court"}

  /** Slot priority of a QUALIFIED item: lower goes first. */
  function AuthorityTier(authority: Option<string>): (tier: nat)
    ensures 1 <= tier <= 4
  {
    if authority == Some("Supreme Court") then 1
    else if authority.Some? && authority.value in PRIORITY_AUTHORITIES then 2
    else if authority == Some("High Court") then 3
    else 4
  }

  /** What a query without `orderBy` may return: every matching row once, in any order. */
  ghost predicate IsRead(rows: seq<Article>, table: set<Article>, p: Article -> bool) {
    Distinct(rows) && forall a :: a in rows <==> a in table && p(a)
  }
}
