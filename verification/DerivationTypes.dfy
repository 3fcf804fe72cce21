/** The tables, group keys and aggregates shared by the four derivation families. */
module DerivationTypes {
  import opened Wrappers
  import opened MembershipDigest

  // ------------------------------------------------------------------- tables

  datatype BaseOccurrence = BaseOccurrence(eventId: string, occurrenceId: string, relation: string)
  datatype TypedEvent = TypedEvent(eventId: string, relation: string, payload: string)
  datatype Participant = Participant(eventId: string, entityId: string, role: string)
  datatype Entity = Entity(entityId: string, kind: string)
  datatype Relationship = Relationship(id: string, kind: string, sourceId: string, targetId: string, eventId: string)

  datatype Tables = Tables(
    occurrences: seq<BaseOccurrence>,
    typedEvents: seq<TypedEvent>,
    participants: seq<Participant>,
    entities: seq<Entity>,
    relationships: seq<Relationship>)

  /** The unique (role, entity id) pairs of an event; the source keeps them sorted. */
  type Scope = set<(string, string)>

  /** A typed event joined with its base occurrence and its scope. */
  datatype Admitted = Admitted(eventId: string, occurrenceId: string, relation: string, payload: string, scope: Scope)

  // ----------------------------------------------------------- foreign readings

  /** A parsed event, in canonical text form. */
  type Value = string

  datatype TimeReading = Time(millis: nat) | NoTime(reason: string)
  datatype StateReading = State(signature: string) | NoState(reason: string)
  datatype DiscriminatorReading = Discriminator(material: string) | NoDiscriminator(reason: string)

  /** How fields are read out of a parsed event: JSON access the model leaves open. */
  datatype Adapters = Adapters(
    parse: string -> Option<Value>,
    time: Value -> TimeReading,
    sourceType: Value -> Option<string>,
    metric: Value -> Option<string>,
    unit: Value -> Option<string>,
    valueMilli: Value -> Option<int>,
    operation: Value -> string,
    protocol: Value -> string,
    measure: (MeasureName, Value) -> Option<int>,
    outcome: Value -> string,
    state: (string, Value) -> StateReading,
    discriminator: (string, Value) -> DiscriminatorReading)

  const METRIC_RELATION := "ocsf_ext_livefire_system_metric"
  const NETWORK_RELATIONS := {"ocsf_network_activity", "ocsf_dns_activity", "ocsf_http_activity"}
  const STATE_RELATIONS := {
    "ocsf_ext_livefire_configuration_snapshot", "ocsf_cloud_resources_inventory_info",
    "ocsf_inventory_info", "ocsf_user_inventory"}
  const WINDOW_MILLIS := 300_000

  datatype MeasureName = Bytes | BytesIn | BytesOut | Packets | PacketsIn | PacketsOut | DurationMillis

  const MEASURES := {Bytes, BytesIn, BytesOut, Packets, PacketsIn, PacketsOut, DurationMillis}

  // ------------------------------------------------------------ derived documents

  datatype Kind = MetricWindow | NetworkWindow | StateTransition | EntitySummary

  datatype SeriesKey = SeriesKey(relation: string, sourceType: Option<string>, discriminator: string, scope: Scope)

  datatype GroupKey =
    | MetricKey(sourceType: Option<string>, metric: string, unit: Option<string>, scope: Scope, windowStart: nat)
    | NetworkKey(relation: string, sourceType: Option<string>, operation: string, protocol: string, scope: Scope,
                 windowStart: nat)
    | TransitionKey(series: SeriesKey, beforeTime: int, afterTime: int, beforeState: string, afterState: string)
    | EntityKey(entityId: string)
  {
    function Kind(): Kind {
      match this
      case MetricKey(_, _, _, _, _) => MetricWindow
      case NetworkKey(_, _, _, _, _, _) => NetworkWindow
      case TransitionKey(_, _, _, _, _) => StateTransition
      case EntityKey(_) => EntitySummary
    }
  }

  datatype Measure = Measure(observed: nat, missing: nat, extremes: Option<Extremes>)
  datatype Extremes = Extremes(minimum: int, maximum: int, sum: int)

  datatype Aggregate =
    | MetricAggregate(sampleCount: nat, extremes: Extremes)
    | NetworkAggregate(eventCount: nat, measures: map<MeasureName, Measure>, outcomes: multiset<string>)
    | TransitionAggregate(beforeState: string, afterState: string, beforeTime: int, afterTime: int)
    | EntityAggregate(kind: string, relations: multiset<string>, roles: multiset<string>, links: multiset<Link>)

  datatype Direction = Outbound | Inbound

  /** One line of an entity's relationship summary; the summary counts its lines. */
  datatype Link = Link(direction: Direction, kind: string, neighborKind: string)

  /** One derived group before it is given an identity. */
  datatype Group = Group(key: GroupKey, aggregate: Aggregate, members: seq<Member>)
}
