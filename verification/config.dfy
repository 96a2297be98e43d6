/** Validation of the run's configuration before any remote call is made. */
module Config {
  import opened Outcomes

  /** The settings the checks read from the command's flags or environment. */
  datatype Settings = Settings(partition: string, region: string, output: string)

  /** The region set GuardDuty offers in each partition, keyed by partition ID.
      A partition that is unknown, or that does not offer GuardDuty, is absent. */
  type RegionTable = map<string, set<string>>

  /** Why a single check rejected the settings. */
  datatype ConfigError =
    | NoRegionsForService(service: string)
    | InvalidPartition(partition: string)
    | InvalidRegion(region: string)
    | InvalidOutput(output: string)

  /** Which stage of the configuration check failed, and why. */
  datatype ConfigFailure =
    | RegionCheckFailed(cause: ConfigError)
    | OutputCheckFailed(cause: ConfigError)

  /** The service whose regions are looked up. */
  const GuardDutyServiceId := "guardduty"

  /** The output modes the formatter accepts, as a lookup table. */
  const OutputModes: map<string, string> := map["text" := "text", "json" := "json"]

  /** The region is usable: the partition is named and offers GuardDuty in it. */
  predicate RegionSupported(table: RegionTable, partition: string, region: string)
  {
    partition != "" && region != "" && partition in table && region in table[partition]
  }

  /** Checks partition and region, in the order the regions are looked up,
      then the partition, then the region. */
  function CheckRegion(s: Settings, table: RegionTable): (r: Outcome<ConfigError>)
    ensures r.Pass? <==> RegionSupported(table, s.partition, s.region)
    ensures s.partition !in table ==> r == Fail(NoRegionsForService(GuardDutyServiceId))
    ensures (s.partition in table && s.partition != "" && !RegionSupported(table, s.partition, s.region))
      ==> r == Fail(InvalidRegion(s.region))
    ensures r.Fail? ==> r.error in {NoRegionsForService(GuardDutyServiceId), InvalidPartition(s.partition), InvalidRegion(s.region)}
    ensures r == Fail(InvalidPartition(s.partition)) ==> "" in table && s.partition == ""
  {
    if s.partition !in table then
      Fail(NoRegionsForService(GuardDutyServiceId))
    else if |s.partition| == 0 then
      Fail(InvalidPartition(s.partition))
    else if |s.region| == 0 then
      Fail(InvalidRegion(s.region))
    else if s.region !in table[s.partition] then
      Fail(InvalidRegion(s.region))
    else
      Pass
  }

  /** Checks that the output mode is one the formatter knows. */
  function CheckOutput(s: Settings): (r: Outcome<ConfigError>)
    ensures r.Pass? <==> s.output == "text" || s.output == "json"
    ensures r.Fail? ==> r.error == InvalidOutput(s.output)
  {
    if s.output !in OutputModes then Fail(InvalidOutput(s.output)) else Pass
  }

  /** Checks the region first and the output mode second, reporting the first
      stage that fails. */
  function CheckConfig(s: Settings, table: RegionTable): (r: Outcome<ConfigFailure>)
    ensures r.Pass? <==> RegionSupported(table, s.partition, s.region) && (s.output == "text" || s.output == "json")
    ensures !RegionSupported(table, s.partition, s.region) ==> r.Fail? && r.error.RegionCheckFailed?
    ensures (RegionSupported(table, s.partition, s.region) && s.output != "text" && s.output != "json")
      ==> r == Fail(OutputCheckFailed(InvalidOutput(s.output)))
  {
    match CheckRegion(s, table)
    case Fail(e) => Fail(RegionCheckFailed(e))
    case Pass =>
      match CheckOutput(s)
      case Fail(e) => Fail(OutputCheckFailed(e))
      case Pass => Pass
  }
}
