/** The rows the gateway keeps about upstream channels, and the boundary a request is pinned to. */
module Gateway {
  const UNKNOWN := 0
  const ENABLED := 1
  const MANUALLY_DISABLED := 2
  const AUTO_DISABLED := 3

  /** `provider` is the lower-cased, trimmed provider of the channel's config, "" when there is none. */
  datatype Channel = Channel(
    id: int, status: int, groups: string, models: string, weight: nat, priority: int,
    provider: string, autoDisabled: bool, isMultiKey: bool)

  /** One row of the abilities table; (group, model, channelId) is its primary key. */
  datatype Ability = Ability(group: string, model: string, channelId: int, enabled: bool, priority: int)

  /** The channels table by id, and the abilities table in the order the database scans it. */
  datatype Database = Database(channels: map<int, Channel>, abilities: seq<Ability>)

  predicate SameKey(a: Ability, b: Ability) {
    a.group == b.group && a.model == b.model && a.channelId == b.channelId
  }

  predicate UniqueKeys(rows: seq<Ability>) {
    forall i, j :: 0 <= i < j < |rows| ==> !SameKey(rows[i], rows[j])
  }

  ghost predicate WellFormed(db: Database) {
    && UniqueKeys(db.abilities)
    && forall c :: c in db.channels ==> db.channels[c].id == c
  }

  /** The condition of the SQL join: an enabled ability of an enabled channel. */
  predicate Joined(channels: map<int, Channel>, a: Ability, group: string, model: string) {
    && a.group == group && a.model == model && a.enabled
    && a.channelId in channels && channels[a.channelId].status == ENABLED
  }

  /** What a request may not leave: a provider ("" for none) and a state channel (0 for none). */
  datatype Boundary = Boundary(provider: string, stateChannel: int)

  predicate HasRetryBoundary(b: Boundary) {
    b.provider != "" || b.stateChannel > 0
  }

  predicate RetryProviderAllows(b: Boundary, ch: Channel) {
    && (b.stateChannel > 0 ==> ch.id == b.stateChannel)
    && (b.provider == "" || ch.provider == b.provider)
  }

  /** The distributor pins the provider of the first channel for the rest of the request. */
  function PinProvider(b: Boundary, ch: Channel): Boundary {
    b.(provider := ch.provider)
  }

  /** Pinning a channel the boundary allows never lets in a channel it forbade, and keeps the pinned one. */
  lemma PinningOnlyNarrows(b: Boundary, first: Channel, ch: Channel)
    requires RetryProviderAllows(b, first)
    ensures RetryProviderAllows(PinProvider(b, first), first)
    ensures RetryProviderAllows(PinProvider(b, first), ch) ==> RetryProviderAllows(b, ch)
    ensures first.provider != "" && RetryProviderAllows(PinProvider(b, first), ch) ==> ch.provider == first.provider
  {
  }
}
