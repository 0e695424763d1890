/** The client's bridge-side objects (lights and their state, groups,
    scenes, the bridge configuration and its parts) as values: an entity is
    its kind plus a map from property name to value, where a value is a
    scalar, a list, a keyed collection, or a nested entity. Each kind
    declares its properties and their types (`TypeOf`) and the subset that
    the generic merge walks (`Table`). */
module Entities {
  import Prop
  import opened Common

  datatype Kind =
    | LightBulb | State
    | Group | GroupState
    | Scene | SceneAppData
    | BridgeConfiguration | SoftwareUpdate | SoftwareUpdateDeviceTypes | PortalState | WhiteList

  /** The type of one property. `PlatformBoolT` is a boolean stored as a
      boolean but read and written through the merge table as a platform
      integer; `IdsT` is an ordered array of ids; `KeyedT(k)` a dictionary
      of entities of kind `k`. */
  datatype FieldType =
    | FlagT | PlatformBoolT | NumT | TextT | CoordsT | IdsT
    | EntityT(kind: Kind)
    | KeyedT(kind: Kind)

  /** A property value. `Null` is the absent value of a nullable property
      (a null string, a null nested object, an unset `bool?` or `int?`). */
  datatype Value =
    | Null
    | Flag(b: bool)
    | Num(n: int)
    | Text(s: string)
    | Coords(x: real, y: real)
    | Ids(ids: seq<string>)
    | Nested(e: Entity)
    | Keyed(m: map<string, Entity>)

  datatype Entity = Entity(kind: Kind, fields: map<Prop.Property, Value>)

  /** The properties that the merge walks: the keys of the kind's
      getter/setter dictionary. */
  function Table(k: Kind): set<Prop.Property>
  {
    match k
    case LightBulb =>
      {Prop.UniqueId, Prop.Type, Prop.Name, Prop.ModelId, Prop.SwVersion, Prop.Manufacturer, Prop.LuminaireUniqueId, Prop.State}
    case State =>
      {Prop.On, Prop.Brightness, Prop.Hue, Prop.Saturation, Prop.ColorTemperature, Prop.Alert, Prop.Effect,
       Prop.ColorModeKey, Prop.ColorMode, Prop.IsOnline}
    case Group => {Prop.Name}
    case GroupState => {Prop.AnyOn, Prop.AllOn}
    case Scene => {Prop.Name, Prop.Owner, Prop.AppData, Prop.Picture, Prop.Recycle, Prop.Locked, Prop.Version, Prop.LastUpdated}
    case SceneAppData => {Prop.Version, Prop.Data}
    case BridgeConfiguration =>
      {Prop.Name, Prop.SoftwareUpdate, Prop.ApiVersion, Prop.SoftwareVersion, Prop.ProxyAddress, Prop.ProxyPort,
       Prop.LinkButton, Prop.IpAddress, Prop.MacAddress, Prop.NetMask, Prop.Gateway, Prop.Dhcp, Prop.PortalConnection,
       Prop.PortalState, Prop.Utc, Prop.LocalTime, Prop.TimeZone, Prop.ZigbeeChannel, Prop.ModelId, Prop.BridgeId,
       Prop.FactoryNew, Prop.ReplacesBridgeId}
    case SoftwareUpdate => {Prop.UpdateState, Prop.Url, Prop.Text, Prop.Notify, Prop.DeviceTypes, Prop.CheckForUpdate}
    case SoftwareUpdateDeviceTypes => {Prop.Bridge}
    case PortalState => {Prop.SignedOn, Prop.Incoming, Prop.Outgoing, Prop.Communication}
    case WhiteList => {Prop.Id, Prop.LastUsedDate, Prop.CreateDate, Prop.Name}
  }

  /** The declared type of each property of a kind, or `None` for a
      property the kind does not have: the table's properties plus those
      the table leaves out on purpose (the ones a kind merges by hand, the
      collection id, and the bridge's `PortalServices`). */
  function TypeOf(k: Kind, p: Prop.Property): Option<FieldType>
  {
    match k
    case LightBulb =>
      (match p
      case Id => Some(TextT)
      case UniqueId => Some(TextT)
      case Type => Some(TextT)
      case Name => Some(TextT)
      case ModelId => Some(TextT)
      case SwVersion => Some(TextT)
      case Manufacturer => Some(TextT)
      case LuminaireUniqueId => Some(TextT)
      case State => Some(EntityT(State))
      case _ => None)
    case State =>
      (match p
      case On => Some(FlagT)
      case Brightness => Some(NumT)
      case Hue => Some(NumT)
      case Saturation => Some(NumT)
      case XY => Some(CoordsT)
      case ColorTemperature => Some(NumT)
      case Alert => Some(NumT)
      case Effect => Some(NumT)
      case ColorModeKey => Some(TextT)
      case ColorMode => Some(NumT)
      case IsOnline => Some(FlagT)
      case _ => None)
    case Group =>
      (match p
      case Id => Some(TextT)
      case Name => Some(TextT)
      case _ => None)
    case GroupState =>
      (match p
      case AnyOn => Some(FlagT)
      case AllOn => Some(FlagT)
      case _ => None)
    case Scene =>
      (match p
      case Id => Some(TextT)
      case Name => Some(TextT)
      case Lights => Some(IdsT)
      case Owner => Some(TextT)
      case AppData => Some(EntityT(SceneAppData))
      case Picture => Some(TextT)
      case Recycle => Some(FlagT)
      case Locked => Some(FlagT)
      case Version => Some(NumT)
      case LastUpdated => Some(TextT)
      case _ => None)
    case SceneAppData =>
      (match p
      case Version => Some(NumT)
      case Data => Some(TextT)
      case _ => None)
    case BridgeConfiguration =>
      (match p
      case Name => Some(TextT)
      case SoftwareUpdate => Some(EntityT(SoftwareUpdate))
      case WhiteList => Some(KeyedT(WhiteList))
      case ApiVersion => Some(TextT)
      case SoftwareVersion => Some(TextT)
      case ProxyAddress => Some(TextT)
      case ProxyPort => Some(NumT)
      case LinkButton => Some(PlatformBoolT)
      case IpAddress => Some(TextT)
      case MacAddress => Some(TextT)
      case NetMask => Some(TextT)
      case Gateway => Some(TextT)
      case Dhcp => Some(PlatformBoolT)
      case PortalServices => Some(PlatformBoolT)
      case PortalConnection => Some(TextT)
      case PortalState => Some(EntityT(PortalState))
      case Utc => Some(TextT)
      case LocalTime => Some(TextT)
      case TimeZone => Some(TextT)
      case ZigbeeChannel => Some(NumT)
      case ModelId => Some(TextT)
      case BridgeId => Some(TextT)
      case FactoryNew => Some(PlatformBoolT)
      case ReplacesBridgeId => Some(TextT)
      case _ => None)
    case SoftwareUpdate =>
      (match p
      case UpdateState => Some(NumT)
      case Url => Some(TextT)
      case Text => Some(TextT)
      case Notify => Some(FlagT)
      case DeviceTypes => Some(EntityT(SoftwareUpdateDeviceTypes))
      case CheckForUpdate => Some(FlagT)
      case _ => None)
    case SoftwareUpdateDeviceTypes =>
      (match p
      case Bridge => Some(PlatformBoolT)
      case Lights => Some(IdsT)
      case Sensors => Some(IdsT)
      case _ => None)
    case PortalState =>
      (match p
      case SignedOn => Some(PlatformBoolT)
      case Incoming => Some(PlatformBoolT)
      case Outgoing => Some(PlatformBoolT)
      case Communication => Some(TextT)
      case _ => None)
    case WhiteList =>
      (match p
      case Id => Some(TextT)
      case LastUsedDate => Some(TextT)
      case CreateDate => Some(TextT)
      case Name => Some(TextT)
      case _ => None)
  }

  /** The kinds whose merge starts with a type test and ends with extra
      steps of their own. */
  predicate HasOverride(k: Kind)
  {
    k == State || k == Scene || k == BridgeConfiguration || k == SoftwareUpdateDeviceTypes
  }

  /** `v` is a value of type `t`. Platform booleans, id arrays and keyed
      collections are never null; every other type is nullable. */
  predicate Fits(v: Value, t: FieldType)
    decreases v
  {
    match t
    case FlagT => v.Null? || v.Flag?
    case PlatformBoolT => v.Flag?
    case NumT => v.Null? || v.Num?
    case TextT => v.Null? || v.Text?
    case CoordsT => v.Null? || v.Coords?
    case IdsT => v.Ids?
    case EntityT(k) => v.Null? || (v.Nested? && v.e.kind == k && Conforms(v.e))
    case KeyedT(k) =>
      v.Keyed? && forall key | key in v.m :: v.m[key].kind == k && Conforms(v.m[key])
  }

  /** `e` has exactly its kind's properties, each of its declared type. */
  predicate Conforms(e: Entity)
    decreases e
  {
    (forall name :: name in e.fields <==> TypeOf(e.kind, name).Some?) &&
    forall name | name in e.fields :: Fits(e.fields[name], TypeOf(e.kind, name).value)
  }
}
