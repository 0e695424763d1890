/** The names of the properties of the client's bridge-side objects, as
    the objects declare them. */
module Prop {

  datatype Property =
    // a light bulb (and the collection id every listed object carries)
    | Id | UniqueId | Type | Name | ModelId | SwVersion | Manufacturer | LuminaireUniqueId | State
    // a light's state
    | On | Brightness | Hue | Saturation | XY | ColorTemperature | Alert | Effect
    | ColorModeKey | ColorMode | IsOnline
    // a group's state
    | AnyOn | AllOn
    // a scene and its application data
    | Lights | Owner | AppData | Picture | Recycle | Locked | Version | LastUpdated | Data
    // the bridge configuration
    | SoftwareUpdate | WhiteList | ApiVersion | SoftwareVersion | ProxyAddress | ProxyPort
    | LinkButton | IpAddress | MacAddress | NetMask | Gateway | Dhcp | PortalServices
    | PortalConnection | PortalState | Utc | LocalTime | TimeZone | ZigbeeChannel | BridgeId
    | FactoryNew | ReplacesBridgeId
    // its software update, the update's device types and the portal state
    | UpdateState | Url | Text | Notify | DeviceTypes | CheckForUpdate
    | Bridge | Sensors
    | SignedOn | Incoming | Outgoing | Communication
    // a whitelist entry
    | LastUsedDate | CreateDate
}
