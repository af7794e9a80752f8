/** The messages of the bridge protocol, as the agent holds them after parsing. */
module Messages {
  import opened Wrappers

  datatype Envelope = Envelope(schemaVersion: int, source: string, machineId: string, sentAtMs: int)

  datatype CatalogSensor = CatalogSensor(
    sensorUid: string, hardwareUid: string, hardwarePath: string, hardwareName: string,
    hardwareType: string, sensorPath: string, sensorName: string, sensorType: string,
    sensorIndex: int, unit: string, isDefaultHidden: bool, propertiesJson: string)

  datatype SensorSample = SensorSample(
    sensorUid: string, value: real, minValue: Option<real>, maxValue: Option<real>, quality: string)

  datatype BridgeMessage =
    | Hello(envelope: Envelope, bridgeVersion: string, hostname: string, pid: int,
            sampleIntervalMs: int, capabilitiesJson: string)
    | CatalogSnapshot(envelope: Envelope, sensors: seq<CatalogSensor>)
    | SampleBatch(envelope: Envelope, sampleTimeMs: int, samples: seq<SensorSample>)
    | Heartbeat(envelope: Envelope, status: string, uptimeSeconds: int, catalogCount: int)
}
