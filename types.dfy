/** The record shapes the store keeps: a subscription, the fields a caller supplies
    when adding or updating one, and the application settings. */
module Types {
  import opened Wrappers

  /** One recurring payment. `price` is a JavaScript number, modelled as a real. */
  datatype Subscription = Subscription(
    id: string,
    appName: string,
    planName: string,
    price: real,
    comments: string,
    expiryDate: string,
    createdAt: string,
    updatedAt: string)

  /** The fields a caller supplies when adding: a subscription without `id`,
      `createdAt` and `updatedAt`. */
  datatype SubscriptionInput = SubscriptionInput(
    appName: string,
    planName: string,
    price: real,
    comments: string,
    expiryDate: string)

  /** A partial set of caller fields for an update; `None` is a key the caller left out. */
  datatype SubscriptionUpdate = SubscriptionUpdate(
    appName: Option<string>,
    planName: Option<string>,
    price: Option<real>,
    comments: Option<string>,
    expiryDate: Option<string>)

  datatype Theme = Light | Dark | System
  datatype SortBy = ByAppName | ByExpiryDate | ByPrice
  datatype SortDirection = Asc | Desc

  /** The complete settings record. */
  datatype AppSettings = AppSettings(
    theme: Theme,
    sortBy: SortBy,
    sortDirection: SortDirection,
    currency: string)

  /** A settings record in which any key may be missing. */
  datatype PartialSettings = PartialSettings(
    theme: Option<Theme>,
    sortBy: Option<SortBy>,
    sortDirection: Option<SortDirection>,
    currency: Option<string>)

  /** The caller-supplied fields of a stored subscription. */
  function InputOf(s: Subscription): SubscriptionInput {
    SubscriptionInput(s.appName, s.planName, s.price, s.comments, s.expiryDate)
  }

  /** A fresh record: the caller's fields with an id and both timestamps set to `now`. */
  function NewRecord(input: SubscriptionInput, id: string, now: string): (r: Subscription)
    ensures InputOf(r) == input
    ensures r.id == id && r.createdAt == now && r.updatedAt == now
  {
    Subscription(id, input.appName, input.planName, input.price, input.comments,
                 input.expiryDate, now, now)
  }

  /** Overlays `o` on `v`: the value `o` carries, or `v` when the key is missing. */
  function Pick<T>(v: T, o: Option<T>): T {
    if o.Some? then o.value else v
  }

  /** `{ ...s, ...u, updatedAt: now }`: the record keeps its identity and creation time
      and is stamped `now`; each key present in `u` takes the value `u` carries, and each
      key missing from `u` keeps its old value. */
  function ApplyUpdate(s: Subscription, u: SubscriptionUpdate, now: string): (r: Subscription)
    ensures r.id == s.id && r.createdAt == s.createdAt && r.updatedAt == now
    ensures u.appName.Some? ==> r.appName == u.appName.value
    ensures u.appName.None? ==> r.appName == s.appName
    ensures u.planName.Some? ==> r.planName == u.planName.value
    ensures u.planName.None? ==> r.planName == s.planName
    ensures u.price.Some? ==> r.price == u.price.value
    ensures u.price.None? ==> r.price == s.price
    ensures u.comments.Some? ==> r.comments == u.comments.value
    ensures u.comments.None? ==> r.comments == s.comments
    ensures u.expiryDate.Some? ==> r.expiryDate == u.expiryDate.value
    ensures u.expiryDate.None? ==> r.expiryDate == s.expiryDate
  {
    Subscription(s.id, Pick(s.appName, u.appName), Pick(s.planName, u.planName),
                 Pick(s.price, u.price), Pick(s.comments, u.comments),
                 Pick(s.expiryDate, u.expiryDate), s.createdAt, now)
  }

  /** The update that sets every caller field, as the edit form sends it. */
  function FullUpdate(input: SubscriptionInput): SubscriptionUpdate {
    SubscriptionUpdate(Some(input.appName), Some(input.planName), Some(input.price),
                       Some(input.comments), Some(input.expiryDate))
  }

  /** An update with no keys changes only `updatedAt`, and a full update leaves exactly
      the given fields. */
  lemma ApplyUpdateProperties(s: Subscription, u: SubscriptionUpdate, now: string)
    ensures u == SubscriptionUpdate(None, None, None, None, None) ==>
              ApplyUpdate(s, u, now) == s.(updatedAt := now)
    ensures forall input :: InputOf(ApplyUpdate(s, FullUpdate(input), now)) == input
  {
  }

  /** Applying the same update twice is the same as applying it once. */
  lemma ApplyUpdateIdempotent(s: Subscription, u: SubscriptionUpdate, now: string)
    ensures ApplyUpdate(ApplyUpdate(s, u, now), u, now) == ApplyUpdate(s, u, now)
  {
  }

  /** Some record of `s` has the id. */
  predicate HasId(s: seq<Subscription>, id: string) {
    exists k :: 0 <= k < |s| && s[k].id == id
  }

  /** No two records of `s` share an id. */
  predicate UniqueIds(s: seq<Subscription>) {
    forall i, j :: 0 <= i < j < |s| ==> s[i].id != s[j].id
  }
}
