/**
 * The canonical beach record as it travels between the pipeline stages as GeoJSON.
 * Every property is optional because each stage re-reads the previous stage's JSON file;
 * `WellTyped` says which keys the declared `BeachProperties` interface requires.
 */
module Beach {
  import opened Wrappers

  datatype Region = North | Central | South {
    /** The string written to the `region` property. */
    function Name(): string {
      match this
      case North => "north"
      case Central => "central"
      case South => "south"
    }
  }

  datatype ManagementType = StateManaged | CountyManaged | CityManaged | SpecialDistrict | FederalManaged {
    /** The string written to the `managementType` property. */
    function Name(): string {
      match this
      case StateManaged => "state"
      case CountyManaged => "county"
      case CityManaged => "city"
      case SpecialDistrict => "special-district"
      case FederalManaged => "federal"
    }
  }

  const API_ONLY: string := "api-only"
  const PARTIAL: string := "partial"
  const COMPLETE: string := "complete"

  datatype Coordinates = Coordinates(latitude: real, longitude: real)

  datatype Accessibility = Accessibility(dogFriendly: bool, wheelchairAccessible: bool, parkingAvailable: bool)

  datatype Contact = Contact(
    department: Option<string>,
    phone: Option<string>,
    email: Option<string>,
    website: Option<string>,
    address: Option<string>)

  datatype Properties = Properties(
    id: Option<string>,
    name: Option<string>,
    county: Option<string>,
    region: Option<string>,
    coordinates: Option<Coordinates>,
    dataStatus: Option<string>,
    lastUpdated: Option<string>,
    managementType: Option<string>,
    accountableEntity: Option<string>,
    managingEntity: Option<string>,
    contractedManager: Option<string>,
    lifeguardService: Option<string>,
    managerContact: Option<Contact>,
    facilities: Option<seq<string>>,
    accessibility: Option<Accessibility>,
    researchPriority: Option<int>,
    apiSourceId: Option<string>,
    notes: Option<string>)

  /** The empty object `{}`. */
  const NO_PROPERTIES: Properties :=
    Properties(None, None, None, None, None, None, None, None, None, None,
               None, None, None, None, None, None, None, None)

  /** A GeoJSON position `[longitude, latitude]`. */
  datatype Position = Position(longitude: real, latitude: real)

  datatype Geometry =
    | Point(coordinates: Position)
    | Polygon(rings: seq<seq<Position>>)
    | OtherGeometry(kind: string)

  datatype Feature = Feature(geometry: Option<Geometry>, properties: Properties)

  /** JavaScript truthiness of an optional string: present and non-empty. */
  predicate Truthy(s: Option<string>) {
    s.Some? && s.value != ""
  }

  /** JavaScript truthiness of an optional number: present and non-zero. */
  predicate TruthyNumber(n: Option<int>) {
    n.Some? && n.value != 0
  }

  /** `researchPriority && researchPriority <= 50`: a member of the priority set. */
  predicate IsPriority(p: Properties) {
    TruthyNumber(p.researchPriority) && p.researchPriority.value <= 50
  }

  /** The keys the `BeachProperties` interface declares as required are present. */
  predicate WellTyped(p: Properties) {
    && p.id.Some? && p.name.Some? && p.county.Some? && p.region.Some?
    && p.coordinates.Some? && p.dataStatus.Some? && p.lastUpdated.Some?
  }

  /** The inclusive California bounding box, 32..42 N and 125..114 W. */
  predicate InCalifornia(latitude: real, longitude: real) {
    32.0 <= latitude <= 42.0 && -125.0 <= longitude <= -114.0
  }
}
