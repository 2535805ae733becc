/** The canonical messages shared by every service on the bus. */
module Contracts {
  import opened Wrappers

  datatype LightFeatures = LightFeatures(brightness: bool, colorTemp: bool, rgb: bool, effects: bool)

  datatype CapabilityKind =
    | Sensor(deviceClass: Option<string>)
    | BinarySensor(deviceClass: Option<string>)
    | Switch
    | Button
    | Light(features: LightFeatures)
    | Number(min: real, max: real, step: real, numberUnit: Option<string>)
    | Select(options: seq<string>)
    | Cover
    | Climate

  datatype Capability = Capability(id: string, kind: CapabilityKind, friendlyName: string, unit: Option<string>)

  datatype Device = Device(serviceId: string, deviceId: string, manufacturer: string, model: string, name: string,
                           swVersion: Option<string>)

  datatype Discovery = Discovery(device: Device, capabilities: seq<Capability>, availabilityTopic: Option<string>)
}
