/** Collation levels, the electoral register, and the roles that act at each level. */
module Hierarchy {
  import opened Wrappers

  type Id = string

  datatype Level = PollingUnit | Ward | Lga | State | National

  const HIERARCHY: seq<Level> := [PollingUnit, Ward, Lga, State, National]

  /** The level whose results a level is rolled up from. */
  function Subordinate(level: Level): Option<Level> {
    match level
    case PollingUnit => None
    case Ward => Some(PollingUnit)
    case Lga => Some(Ward)
    case State => Some(Lga)
    case National => Some(State)
  }

  /** Every level but the first is rolled up from the one before it in the hierarchy. */
  lemma SubordinateIsPredecessor(i: nat)
    requires i < |HIERARCHY|
    ensures Subordinate(HIERARCHY[i]) == if i == 0 then None else Some(HIERARCHY[i - 1])
  {
  }

  /** The register: each polling unit's ward, each ward's LGA, each LGA's state. */
  datatype Register = Register(puWard: map<Id, Id>, wardLga: map<Id, Id>, lgaState: map<Id, Id>) {
    /** The foreign keys of the register point at existing rows. */
    ghost predicate Valid() {
      && (forall pu :: pu in puWard ==> puWard[pu] in wardLga)
      && (forall ward :: ward in wardLga ==> wardLga[ward] in lgaState)
    }

    /** Whether `child`, a scope one level below `level`, lies directly in `scope`. */
    predicate IsChild(level: Level, scope: Id, child: Id) {
      match level
      case PollingUnit => false
      case Ward => child in puWard && puWard[child] == scope
      case Lga => child in wardLga && wardLga[child] == scope
      case State => child in lgaState && lgaState[child] == scope
      case National => child in lgaState.Values
    }

    function LgaOfPu(pu: Id): Option<Id> {
      if pu in puWard && puWard[pu] in wardLga then Some(wardLga[puWard[pu]]) else None
    }

    function StateOfWard(ward: Id): Option<Id> {
      if ward in wardLga && wardLga[ward] in lgaState then Some(lgaState[wardLga[ward]]) else None
    }

    function StateOfPu(pu: Id): Option<Id> {
      if pu in puWard then StateOfWard(puWard[pu]) else None
    }

    /** Whether a registered polling unit lies, directly or not, in a scope. */
    predicate PuUnder(level: Level, scope: Id, pu: Id) {
      match level
      case PollingUnit => false
      case Ward => pu in puWard && puWard[pu] == scope
      case Lga => LgaOfPu(pu) == Some(scope)
      case State => StateOfPu(pu) == Some(scope)
      case National => StateOfPu(pu).Some?
    }
  }

  datatype Role =
    | PollingAgent | PollingUnitOfficer
    | WardRaOfficer | WardCoordinator
    | LgaCollationOfficer | LgaCoordinator
    | StateCollationOfficer | StateCoordinator
    | NationalCollationOfficer
    | CampaignDirector | CandidateRole
    | OtherRole

  function LevelForRole(role: Role): Option<Level> {
    match role
    case PollingAgent | PollingUnitOfficer => Some(PollingUnit)
    case WardRaOfficer | WardCoordinator => Some(Ward)
    case LgaCollationOfficer | LgaCoordinator => Some(Lga)
    case StateCollationOfficer | StateCoordinator => Some(State)
    case NationalCollationOfficer => Some(National)
    case CampaignDirector | CandidateRole | OtherRole => None
  }

  /** The level and scope a collation officer works at. */
  datatype Post = Post(level: Level, scope: Id)

  datatype User = User(sub: Id, role: Role, scope: Option<Id>) {
    predicate IsAdmin() {
      role == CampaignDirector || role == CandidateRole
    }

    /** The officer's post; None when collation access is refused. */
    function Posting(): Option<Post> {
      if scope.Some? && LevelForRole(role).Some?
      then Some(Post(LevelForRole(role).value, scope.value))
      else None
    }
  }
}
