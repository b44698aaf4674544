/** The refresh-token table and the Prisma calls the token code makes on it.

    A row is keyed by its `tokenHash`. Both the row id and the hash are unique and
    never change, so the claim by `record.id` is the claim by that key. SHA-256 is
    taken to be injective on the tokens in use, which lets a presented token stand
    for its own hash.
  */
module TokenStore {
  import opened Wrappers

  type Token = nat
  type User = nat

  const DAY_MS: nat := 24 * 60 * 60 * 1000
  const REVOKED_GRACE_MS: nat := 7 * DAY_MS

  datatype Row = Row(user: User, expiresAt: int, revokedAt: Option<int>) {
    predicate Live() {
      revokedAt.None?
    }

    /** The strict comparison the rotation and the purge share. */
    predicate Expired(now: int) {
      expiresAt < now
    }

    /** Revoked, and for longer than the purge keeps revoked rows. */
    predicate LongRevoked(now: int) {
      revokedAt.Some? && revokedAt.value < now - REVOKED_GRACE_MS
    }

    function Revoked(at: int): Row
      requires Live()
    {
      this.(revokedAt := Some(at))
    }
  }

  /** `inactive` holds the users who are soft-deleted or whose tenant is. */
  datatype Store = Store(now: int, ttlDays: nat, rows: map<Token, Row>, inactive: set<User>) {

    function Find(t: Token): Option<Row> {
      if t in rows then Some(rows[t]) else None
    }

    predicate LiveToken(t: Token) {
      t in rows && rows[t].Live()
    }

    /** `updateMany` on one key guarded by `revokedAt: null`: the claim and the logout. */
    function Claim(t: Token): Store {
      if LiveToken(t) then this.(rows := rows[t := rows[t].Revoked(now)]) else this
    }

    /** `updateMany` over a user's live rows. */
    function RevokeAll(u: User): Store {
      this.(rows := map t | t in rows :: if rows[t].user == u && rows[t].Live() then rows[t].Revoked(now) else rows[t])
    }

    /** `create` of a row for a token that is not stored yet. */
    function Insert(t: Token, u: User): Store {
      this.(rows := rows[t := Row(u, now + ttlDays * DAY_MS, None)])
    }

    /** The daily `deleteMany`. */
    function Purge(): Store {
      this.(rows := map t | t in rows && !rows[t].Expired(now) && !rows[t].LongRevoked(now) :: rows[t])
    }
  }
}
