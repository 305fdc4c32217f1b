/**
  The verification-code store shared by the chat bot and the web app:
  a map from a user id to the code issued to that user and the instant
  at which it stops being valid.
 */
module VerificationStore {

  import opened Wrappers

  /** A point in time, in microseconds (the resolution of Python's datetime). */
  type Instant = int

  /** The fixed validity window of an issued code: one minute. */
  const Ttl: int := 60 * 1_000_000

  /** The number of characters of an issued code. */
  const CodeLength: nat := 4

  /** One stored record, `{'code': ..., 'expires_at': ...}`. */
  datatype Entry = Entry(code: string, expiresAt: Instant)

  type Store = map<string, Entry>

  predicate IsDigit(c: char) {
    '0' <= c <= '9'
  }

  /** A well-formed code: four decimal digits, leading zeros allowed. */
  predicate IsCode(s: string) {
    |s| == CodeLength && forall i | 0 <= i < |s| :: IsDigit(s[i])
  }

  /**
    An entry is live at `now` while `now` is strictly before its expiry.
    Both the read-time check (`now < expires_at`) and the purge filter
    (`expires_at > now`) are this one comparison.
   */
  predicate Live(e: Entry, now: Instant) {
    now < e.expiresAt
  }

  /** Every code in the store is a well-formed code. */
  ghost predicate AllCodes(m: Store) {
    forall u | u in m :: IsCode(m[u].code)
  }

  /** The purge done before every save: keep exactly the live entries, values untouched. */
  function Purge(m: Store, now: Instant): (r: Store)
    ensures forall u :: u in r <==> u in m && Live(m[u], now)
    ensures forall u | u in r :: r[u] == m[u]
  {
    map u | u in m && Live(m[u], now) :: m[u]
  }

  /** What a read of user `u` at `now` observes: the code of a live entry, otherwise nothing. */
  function Lookup(m: Store, u: string, now: Instant): Option<string> {
    if u in m && Live(m[u], now) then Some(m[u].code) else None
  }

  /** A later purge subsumes an earlier one; at the same instant purging is idempotent. */
  lemma PurgeLater(m: Store, t1: Instant, t2: Instant)
    requires t1 <= t2
    ensures Purge(Purge(m, t1), t2) == Purge(m, t2)
  {
  }

  lemma PurgeIdempotent(m: Store, now: Instant)
    ensures Purge(Purge(m, now), now) == Purge(m, now)
  {
    PurgeLater(m, now, now);
  }

  /**
    Purging never changes what a read observes at that instant or later:
    an expired entry that is still present reads as absent.
   */
  lemma PurgeInvisible(m: Store, u: string, now: Instant, later: Instant)
    requires now <= later
    ensures Lookup(Purge(m, now), u, later) == Lookup(m, u, later)
  {
  }

  /** Once expired, an entry stays unredeemable at every later instant. */
  lemma ExpiredStaysExpired(m: Store, u: string, now: Instant, later: Instant)
    requires now <= later
    requires u in m && !Live(m[u], now)
    ensures Lookup(m, u, later) == None
  {
  }

  /** Purging keeps well-formedness of codes. */
  lemma PurgeKeepsCodes(m: Store, now: Instant)
    requires AllCodes(m)
    ensures AllCodes(Purge(m, now))
  {
  }
}
