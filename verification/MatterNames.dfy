/** Matter cluster and attribute names, and how their numbers are read back from the names alone. */
module MatterNames {
  import opened Wrappers
  import opened Text

  // ---- Letters ----

  predicate IsLower(c: char) { 'a' <= c <= 'z' }
  predicate IsUpper(c: char) { 'A' <= c <= 'Z' }
  predicate IsAlnum(c: char) { IsLower(c) || IsUpper(c) || IsDigit(c) }

  function ToLower(c: char): char {
    if IsUpper(c) then c - 'A' + 'a' else c
  }

  function Lower(s: string): (t: string)
    ensures |t| == |s|
    ensures forall i :: 0 <= i < |s| ==> t[i] == ToLower(s[i])
  {
    seq(|s|, i requires 0 <= i < |s| => ToLower(s[i]))
  }

  predicate AllAlnum(s: string) {
    forall i :: 0 <= i < |s| ==> 'a' <= s[i] <= 'z' || 'A' <= s[i] <= 'Z' || '0' <= s[i] <= '9'
  }

  /** Letters and digits, a capital first, and nothing that could be taken for "attr". */
  type Name = s: string | AllAlnum(s) && |s| >= 4 && IsUpper(s[0]) && !(s[0] == 'A' && ToLower(s[1]) == 't')
    witness "Name"

  /** A name that could not be taken for "cluster" either. */
  type ClusterWord = s: Name | |s| >= 5 && !(s[0] == 'C' && ToLower(s[1]) == 'l') witness "Names"

  // ---- Clusters ----

  function GeneralCluster(cluster: nat): Option<ClusterWord> {
    match cluster
    case 3 => Some("Identify") case 4 => Some("Groups") case 5 => Some("Scenes") case 6 => Some("OnOff")
    case 8 => Some("LevelControl") case _ => None
  }

  function NodeCluster(cluster: nat): Option<ClusterWord> {
    match cluster
    case 29 => Some("Descriptor") case 30 => Some("Binding") case 31 => Some("AccessControl")
    case 40 => Some("BasicInformation") case _ => None
  }

  function SettingsCluster(cluster: nat): Option<ClusterWord> {
    match cluster
    case 43 => Some("LocalizationConfiguration") case 44 => Some("TimeFormatLocalization")
    case 45 => Some("UnitLocalization") case 47 => Some("PowerSource") case _ => None
  }

  function CommissioningCluster(cluster: nat): Option<ClusterWord> {
    match cluster
    case 48 => Some("GeneralCommissioning") case 49 => Some("NetworkCommissioning") case _ => None
  }

  function DiagnosticsCluster(cluster: nat): Option<ClusterWord> {
    match cluster
    case 50 => Some("DiagnosticLogs") case 51 => Some("GeneralDiagnostics")
    case 52 => Some("SoftwareDiagnostics") case _ => None
  }

  function NetworkDiagnosticsCluster(cluster: nat): Option<ClusterWord> {
    match cluster
    case 53 => Some("ThreadNetworkDiagnostics") case 54 => Some("WiFiNetworkDiagnostics")
    case 55 => Some("EthernetNetworkDiagnostics") case _ => None
  }

  function AdministrationCluster(cluster: nat): Option<ClusterWord> {
    match cluster
    case 60 => Some("AdministratorCommissioning") case 62 => Some("OperationalCredentials")
    case 63 => Some("GroupKeyManagement") case _ => None
  }

  function LabelCluster(cluster: nat): Option<ClusterWord> {
    match cluster
    case 64 => Some("FixedLabel") case 65 => Some("UserLabel") case _ => None
  }

  function ElectricalCluster(cluster: nat): Option<ClusterWord> {
    match cluster
    case 144 => Some("ElectricalEnergyMeasurement") case 145 => Some("ElectricalPowerMeasurement")
    case _ => None
  }

  function SensingCluster(cluster: nat): Option<ClusterWord> {
    match cluster
    case 768 => Some("ColorControl") case 1026 => Some("TemperatureMeasurement")
    case 1029 => Some("RelativeHumidityMeasurement") case _ => None
  }

  function ClusterTitle(cluster: nat): Option<ClusterWord> {
    if cluster <= 8 then GeneralCluster(cluster)
    else if cluster <= 40 then NodeCluster(cluster)
    else if cluster <= 47 then SettingsCluster(cluster)
    else if cluster <= 49 then CommissioningCluster(cluster)
    else if cluster <= 52 then DiagnosticsCluster(cluster)
    else if cluster <= 55 then NetworkDiagnosticsCluster(cluster)
    else if cluster <= 63 then AdministrationCluster(cluster)
    else if cluster <= 65 then LabelCluster(cluster)
    else if cluster <= 145 then ElectricalCluster(cluster)
    else SensingCluster(cluster)
  }

  predicate NamedCluster(cluster: nat) {
    ClusterTitle(cluster).Some?
  }

  /** Cluster names; an unknown cluster is called "Cluster". */
  function ClusterName(cluster: nat): string {
    match ClusterTitle(cluster)
    case Some(name) => name
    case None => "Cluster"
  }

  // ---- Attributes ----

  function OnOffAttribute(attribute: nat): Option<Name> {
    match attribute
    case 0 => Some("OnOff") case 1 => Some("GlobalSceneControl") case 2 => Some("OnTime")
    case 3 => Some("OffWaitTime") case 4 => Some("StartUpOnOff") case _ => None
  }

  function LevelAttribute(attribute: nat): Option<Name> {
    match attribute
    case 0 => Some("CurrentLevel") case 1 => Some("RemainingTime") case 2 => Some("MinLevel")
    case 3 => Some("MaxLevel") case _ => None
  }

  function TransitionAttribute(attribute: nat): Option<Name> {
    match attribute
    case 15 => Some("Options") case 17 => Some("OnOffTransitionTime") case 18 => Some("OnLevel")
    case 19 => Some("OnTransitionTime") case 20 => Some("OffTransitionTime") case 21 => Some("DefaultMoveRate")
    case _ => None
  }

  function LevelControlAttribute(attribute: nat): Option<Name> {
    if attribute < 15 then LevelAttribute(attribute) else TransitionAttribute(attribute)
  }

  function DescriptorAttribute(attribute: nat): Option<Name> {
    match attribute
    case 0 => Some("DeviceTypeList") case 1 => Some("ServerList") case 2 => Some("ClientList")
    case 3 => Some("PartsList") case _ => None
  }

  function NamingAttribute(attribute: nat): Option<Name> {
    match attribute
    case 0 => Some("DataModelRevision") case 1 => Some("VendorName") case 2 => Some("VendorID")
    case 3 => Some("ProductName") case 4 => Some("ProductID") case 5 => Some("NodeLabel")
    case 6 => Some("Location") case _ => None
  }

  function VersionAttribute(attribute: nat): Option<Name> {
    match attribute
    case 7 => Some("HardwareVersion") case 8 => Some("HardwareVersionString") case 9 => Some("SoftwareVersion")
    case 10 => Some("SoftwareVersionString") case _ => None
  }

  function ProductAttribute(attribute: nat): Option<Name> {
    match attribute
    case 11 => Some("ManufacturingDate") case 12 => Some("PartNumber") case 13 => Some("ProductURL")
    case 14 => Some("ProductLabel") case _ => None
  }

  function IdentityAttribute(attribute: nat): Option<Name> {
    match attribute
    case 15 => Some("SerialNumber") case 16 => Some("LocalConfigDisabled") case 17 => Some("Reachable")
    case 18 => Some("UniqueID") case 19 => Some("CapabilityMinima") case _ => None
  }

  function InformationAttribute(attribute: nat): Option<Name> {
    if attribute < 7 then NamingAttribute(attribute)
    else if attribute < 11 then VersionAttribute(attribute)
    else if attribute < 15 then ProductAttribute(attribute)
    else IdentityAttribute(attribute)
  }

  function LocaleAttribute(attribute: nat): Option<Name> {
    match attribute
    case 0 => Some("ActiveLocale") case 1 => Some("SupportedLocales") case _ => None
  }

  function TimeFormatAttribute(attribute: nat): Option<Name> {
    match attribute
    case 0 => Some("HourFormat") case 1 => Some("ActiveCalendarType") case 2 => Some("SupportedCalendarTypes")
    case _ => None
  }

  function UnitAttribute(attribute: nat): Option<Name> {
    match attribute
    case 0 => Some("TemperatureUnit") case _ => None
  }

  function SupplyAttribute(attribute: nat): Option<Name> {
    match attribute
    case 0 => Some("Status") case 1 => Some("Order") case 2 => Some("Description")
    case 3 => Some("WiredAssessedInputVoltage") case 4 => Some("WiredAssessedInputFrequency")
    case 5 => Some("WiredCurrentType") case _ => None
  }

  function BatteryAttribute(attribute: nat): Option<Name> {
    match attribute
    case 11 => Some("BatteryVoltage") case 12 => Some("BatteryPercent") case 14 => Some("BatteryChargeLevel")
    case _ => None
  }

  function PowerAttribute(attribute: nat): Option<Name> {
    if attribute < 6 then SupplyAttribute(attribute) else BatteryAttribute(attribute)
  }

  function ProgressAttribute(attribute: nat): Option<Name> {
    match attribute
    case 0 => Some("Breadcrumb") case 1 => Some("BasicCommissioningInfo") case _ => None
  }

  function RegulatoryAttribute(attribute: nat): Option<Name> {
    match attribute
    case 2 => Some("RegulatoryConfig") case 3 => Some("LocationCapability")
    case 4 => Some("SupportsConcurrentConnection") case _ => None
  }

  function CommissioningAttribute(attribute: nat): Option<Name> {
    if attribute < 2 then ProgressAttribute(attribute) else RegulatoryAttribute(attribute)
  }

  function ScanAttribute(attribute: nat): Option<Name> {
    match attribute
    case 0 => Some("MaxNetworks") case 1 => Some("Networks") case 2 => Some("ScanMaxTimeSeconds")
    case 3 => Some("ConnectMaxTimeSeconds") case _ => None
  }

  function ConnectionAttribute(attribute: nat): Option<Name> {
    match attribute
    case 4 => Some("InterfaceEnabled") case 5 => Some("LastNetworkingStatus") case 6 => Some("LastNetworkID")
    case _ => None
  }

  function ErrorAttribute(attribute: nat): Option<Name> {
    match attribute
    case 7 => Some("LastConnectErrorValue") case _ => None
  }

  function NetworkAttribute(attribute: nat): Option<Name> {
    if attribute < 4 then ScanAttribute(attribute)
    else if attribute < 7 then ConnectionAttribute(attribute) else ErrorAttribute(attribute)
  }

  function ColorAttribute(attribute: nat): Option<Name> {
    match attribute
    case 0 => Some("CurrentHue") case 1 => Some("CurrentSaturation") case 3 => Some("CurrentX")
    case 4 => Some("CurrentY") case 7 => Some("ColorTemperatureMireds") case 8 => Some("ColorMode")
    case _ => None
  }

  function TemperatureAttribute(attribute: nat): Option<Name> {
    match attribute
    case 0 => Some("MeasuredValue") case 1 => Some("MinMeasuredValue") case 2 => Some("MaxMeasuredValue")
    case _ => None
  }

  function HumidityAttribute(attribute: nat): Option<Name> {
    match attribute
    case 0 => Some("MeasuredValue") case 1 => Some("MinMeasuredValue") case 2 => Some("MaxMeasuredValue")
    case _ => None
  }

  function CumulativeAttribute(attribute: nat): Option<Name> {
    match attribute
    case 0 => Some("Accuracy") case 1 => Some("CumulativeEnergyImported")
    case 2 => Some("CumulativeEnergyExported") case _ => None
  }

  function PeriodicAttribute(attribute: nat): Option<Name> {
    match attribute
    case 3 => Some("PeriodicEnergyImported") case 4 => Some("PeriodicEnergyExported") case _ => None
  }

  function EnergyAttribute(attribute: nat): Option<Name> {
    if attribute < 3 then CumulativeAttribute(attribute) else PeriodicAttribute(attribute)
  }

  function ModeAttribute(attribute: nat): Option<Name> {
    match attribute
    case 0 => Some("PowerMode") case 1 => Some("NumberOfMeasurementTypes") case 4 => Some("Voltage")
    case 5 => Some("ActiveCurrent") case _ => None
  }

  function ApparentAttribute(attribute: nat): Option<Name> {
    match attribute
    case 6 => Some("ReactiveCurrent") case 7 => Some("ApparentCurrent") case 8 => Some("ActivePower")
    case 9 => Some("ReactivePower") case 10 => Some("ApparentPower") case _ => None
  }

  function RmsAttribute(attribute: nat): Option<Name> {
    match attribute
    case 11 => Some("RMSVoltage") case 12 => Some("RMSCurrent") case 13 => Some("RMSPower")
    case 14 => Some("Frequency") case 17 => Some("PowerFactor") case _ => None
  }

  function ElectricalAttribute(attribute: nat): Option<Name> {
    if attribute < 6 then ModeAttribute(attribute)
    else if attribute < 11 then ApparentAttribute(attribute)
    else RmsAttribute(attribute)
  }

  /** Attribute names, by cluster. */
  function AttributeName(cluster: nat, attribute: nat): Option<Name> {
    match cluster
    case 6 => OnOffAttribute(attribute)
    case 8 => LevelControlAttribute(attribute)
    case 29 => DescriptorAttribute(attribute)
    case 40 => InformationAttribute(attribute)
    case 43 => LocaleAttribute(attribute)
    case 44 => TimeFormatAttribute(attribute)
    case 45 => UnitAttribute(attribute)
    case 47 => PowerAttribute(attribute)
    case 48 => CommissioningAttribute(attribute)
    case 49 => NetworkAttribute(attribute)
    case 768 => ColorAttribute(attribute)
    case 1026 => TemperatureAttribute(attribute)
    case 1029 => HumidityAttribute(attribute)
    case 144 => EnergyAttribute(attribute)
    case 145 => ElectricalAttribute(attribute)
    case _ => None
  }

  // ---- Reading numbers back ----

  function At(u: string, k: nat): char {
    if k < |u| then u[k] else ' '
  }

  /** Reads the number of a named cluster off text that starts with its run-together lower-case name. */
  function ClusterFrom(t: string): nat {
    ClusterFromKey(At(t, 0), At(t, 1), At(t, 5), At(t, 7), At(t, 10))
  }

  function ClusterFromKey(c0: char, c1: char, c5: char, c7: char, c10: char): nat {
    if c0 == 'i' && c1 == 'd' then 3
    else if c0 == 'g' && c1 == 'r' then (if c5 == 's' then 4 else 63)
    else if c0 == 's' && c1 == 'c' then 5
    else if c0 == 'o' && c1 == 'n' then 6
    else if c0 == 'l' && c1 == 'e' then 8
    else if c0 == 'd' && c1 == 'e' then 29
    else if c0 == 'b' && c1 == 'i' then 30
    else if c0 == 'a' && c1 == 'c' then 31
    else if c0 == 'b' && c1 == 'a' then 40
    else if c0 == 'l' && c1 == 'o' then 43
    else if c0 == 't' && c1 == 'i' then 44
    else if c0 == 'u' && c1 == 'n' then 45
    else if c0 == 'p' && c1 == 'o' then 47
    else if c0 == 'g' && c1 == 'e' then (if c7 == 'c' then 48 else 51)
    else if c0 == 'n' && c1 == 'e' then 49
    else if c0 == 'd' && c1 == 'i' then 50
    else if c0 == 's' && c1 == 'o' then 52
    else if c0 == 't' && c1 == 'h' then 53
    else if c0 == 'w' && c1 == 'i' then 54
    else if c0 == 'e' && c1 == 't' then 55
    else if c0 == 'a' && c1 == 'd' then 60
    else if c0 == 'o' && c1 == 'p' then 62
    else if c0 == 'f' && c1 == 'i' then 64
    else if c0 == 'u' && c1 == 's' then 65
    else if c0 == 'e' && c1 == 'l' then (if c10 == 'e' then 144 else 145)
    else if c0 == 'c' && c1 == 'o' then 768
    else if c0 == 't' && c1 == 'e' then 1026
    else 1029
  }

  /** Reads the number of a named attribute off its run-together lower-case name. */
  function AttributeFrom(cluster: nat, u: string): nat {
    match cluster
    case 6 => OnOffNumber(u)
    case 8 => LevelControlNumber(u)
    case 29 => DescriptorNumber(u)
    case 40 => InformationNumber(u)
    case 43 => LocaleNumber(u)
    case 44 => TimeFormatNumber(u)
    case 45 => UnitNumber(u)
    case 47 => PowerNumber(u)
    case 48 => CommissioningNumber(u)
    case 49 => NetworkNumber(u)
    case 768 => ColorNumber(u)
    case 1026 => TemperatureNumber(u)
    case 1029 => HumidityNumber(u)
    case 144 => EnergyNumber(u)
    case 145 => ElectricalNumber(u)
    case _ => 0
  }

  function OnOffNumber(u: string): nat {
    if |u| == 5 then 0 else if |u| == 6 then 2 else if |u| == 11 then 3 else if |u| == 12 then 4 else 1
  }

  function LevelControlNumber(u: string): nat {
    if |u| == 7 then (if At(u, 1) == 'n' then 18 else 15)
    else if |u| == 8 then (if At(u, 1) == 'a' then 3 else 2) else if |u| == 12 then 0 else if |u| == 13 then 1
    else if |u| == 15 then 21 else if |u| == 16 then 19 else if |u| == 17 then 20 else 17
  }

  function DescriptorNumber(u: string): nat {
    if At(u, 0) == 'c' then 2 else if At(u, 0) == 'd' then 0 else if At(u, 0) == 'p' then 3 else 1
  }

  function InformationNumber(u: string): nat {
    if At(u, 0) == 'c' then 19 else if At(u, 0) == 'd' then 0
    else if At(u, 0) == 'h' then (if |u| == 15 then 7 else 8)
    else if At(u, 0) == 'l' then (if |u| == 8 then 6 else 16) else if At(u, 0) == 'm' then 11
    else if At(u, 0) == 'n' then 5
    else if At(u, 0) == 'p' then
      (if At(u, 7) == 'b' then 12 else if At(u, 7) == 'i' then 4 else if At(u, 7) == 'l' then 14
       else if At(u, 7) == 'n' then 3 else 13)
    else if At(u, 0) == 'r' then 17
    else if At(u, 0) == 's' then (if |u| == 12 then 15 else if |u| == 15 then 9 else 10)
    else if At(u, 0) == 'u' then 18 else (if |u| == 8 then 2 else 1)
  }

  function LocaleNumber(u: string): nat {
    if |u| == 12 then 0 else 1
  }

  function TimeFormatNumber(u: string): nat {
    if |u| == 10 then 0 else if |u| == 18 then 1 else 2
  }

  function UnitNumber(u: string): nat {
    0
  }

  function PowerNumber(u: string): nat {
    if |u| == 5 then 1 else if |u| == 6 then 0 else if |u| == 11 then 2
    else if |u| == 14 then (if At(u, 7) == 'p' then 12 else 11) else if |u| == 16 then 5
    else if |u| == 18 then 14 else if |u| == 25 then 3 else 4
  }

  function CommissioningNumber(u: string): nat {
    if |u| == 10 then 0 else if |u| == 16 then 2 else if |u| == 18 then 3 else if |u| == 22 then 1 else 4
  }

  function NetworkNumber(u: string): nat {
    if |u| == 8 then 1 else if |u| == 11 then 0 else if |u| == 13 then 6 else if |u| == 16 then 4
    else if |u| == 18 then 2 else if |u| == 20 then 5 else (if At(u, 0) == 'c' then 3 else 7)
  }

  function ColorNumber(u: string): nat {
    if At(u, 7) == 'd' then 8 else if At(u, 7) == 'h' then 0 else if At(u, 7) == 'm' then 7
    else if At(u, 7) == 's' then 1 else if At(u, 7) == 'x' then 3 else 4
  }

  function TemperatureNumber(u: string): nat {
    if At(u, 1) == 'a' then 2 else if At(u, 1) == 'e' then 0 else 1
  }

  function HumidityNumber(u: string): nat {
    if At(u, 1) == 'a' then 2 else if At(u, 1) == 'e' then 0 else 1
  }

  function EnergyNumber(u: string): nat {
    if |u| == 8 then 0 else if |u| == 22 then (if At(u, 14) == 'e' then 4 else 3)
    else (if At(u, 16) == 'e' then 2 else 1)
  }

  function ElectricalNumber(u: string): nat {
    if At(u, 3) == 'a' then (if |u| == 13 then 10 else 7) else if At(u, 3) == 'b' then 1
    else if At(u, 3) == 'c' then (if |u| == 10 then 12 else if |u| == 13 then 9 else 6)
    else if At(u, 3) == 'e' then (if |u| == 9 then 0 else 17)
    else if At(u, 3) == 'i' then (if |u| == 11 then 8 else 5) else if At(u, 3) == 'p' then 13
    else if At(u, 3) == 'q' then 14 else if At(u, 3) == 't' then 4 else 11
  }

  /** The deciding letters of a cluster name, whatever follows the name. */
  ghost predicate KeyOf(name: string, c0: char, c1: char, c5: char, c7: char, c10: char) {
    && |name| >= 5 && c0 == ToLower(name[0]) && c1 == ToLower(name[1])
    && (|name| > 5 ==> c5 == ToLower(name[5]))
    && (|name| > 7 ==> c7 == ToLower(name[7]))
    && (|name| > 10 ==> c10 == ToLower(name[10]))
  }

  ghost predicate Decides(name: string, cluster: nat) {
    forall c0, c1, c5, c7, c10 ::
      KeyOf(name, c0, c1, c5, c7, c10) ==> ClusterFromKey(c0, c1, c5, c7, c10) == cluster
  }

  ghost predicate Decided(name: Option<ClusterWord>, cluster: nat) {
    name.Some? ==> Decides(name.value, cluster)
  }

  lemma GeneralClusterDecided(cluster: nat)
    ensures Decided(GeneralCluster(cluster), cluster)
  {
  }

  lemma NodeClusterDecided(cluster: nat)
    ensures Decided(NodeCluster(cluster), cluster)
  {
  }

  lemma SettingsClusterDecided(cluster: nat)
    ensures Decided(SettingsCluster(cluster), cluster)
  {
  }

  lemma CommissioningClusterDecided(cluster: nat)
    ensures Decided(CommissioningCluster(cluster), cluster)
  {
  }

  lemma DiagnosticsClusterDecided(cluster: nat)
    ensures Decided(DiagnosticsCluster(cluster), cluster)
  {
  }

  lemma NetworkDiagnosticsClusterDecided(cluster: nat)
    ensures Decided(NetworkDiagnosticsCluster(cluster), cluster)
  {
  }

  lemma AdministrationClusterDecided(cluster: nat)
    ensures Decided(AdministrationCluster(cluster), cluster)
  {
  }

  lemma LabelClusterDecided(cluster: nat)
    ensures Decided(LabelCluster(cluster), cluster)
  {
  }

  lemma ElectricalClusterDecided(cluster: nat)
    ensures Decided(ElectricalCluster(cluster), cluster)
  {
  }

  lemma SensingClusterDecided(cluster: nat)
    ensures Decided(SensingCluster(cluster), cluster)
  {
  }

  lemma ClusterDecided(cluster: nat)
    ensures Decided(ClusterTitle(cluster), cluster)
  {
    if cluster <= 8 {
      GeneralClusterDecided(cluster);
    } else if cluster <= 40 {
      NodeClusterDecided(cluster);
    } else if cluster <= 47 {
      SettingsClusterDecided(cluster);
    } else if cluster <= 49 {
      CommissioningClusterDecided(cluster);
    } else if cluster <= 52 {
      DiagnosticsClusterDecided(cluster);
    } else if cluster <= 55 {
      NetworkDiagnosticsClusterDecided(cluster);
    } else if cluster <= 63 {
      AdministrationClusterDecided(cluster);
    } else if cluster <= 65 {
      LabelClusterDecided(cluster);
    } else if cluster <= 145 {
      ElectricalClusterDecided(cluster);
    } else {
      SensingClusterDecided(cluster);
    }
  }

  lemma NameReadsBack(cluster: nat, name: ClusterWord, rest: string)
    requires Decides(name, cluster)
    ensures ClusterFrom(Lower(name) + rest) == cluster
    ensures |Lower(name) + rest| >= 5
    ensures !((Lower(name) + rest)[0] == 'c' && (Lower(name) + rest)[1] == 'l')
  {
    var t := Lower(name) + rest;
    assert t[0] == ToLower(name[0]) && t[1] == ToLower(name[1]);
    assert |name| > 5 ==> t[5] == ToLower(name[5]);
    assert |name| > 7 ==> t[7] == ToLower(name[7]);
    assert |name| > 10 ==> t[10] == ToLower(name[10]);
    assert KeyOf(name, At(t, 0), At(t, 1), At(t, 5), At(t, 7), At(t, 10));
  }

  lemma ClusterReadsBack(cluster: nat, rest: string)
    requires NamedCluster(cluster)
    ensures ClusterFrom(Lower(ClusterName(cluster)) + rest) == cluster
    ensures |Lower(ClusterName(cluster)) + rest| >= 5
    ensures !((Lower(ClusterName(cluster)) + rest)[0] == 'c' && (Lower(ClusterName(cluster)) + rest)[1] == 'l')
  {
    ClusterDecided(cluster);
    NameReadsBack(cluster, ClusterTitle(cluster).value, rest);
  }

  ghost predicate ReadsBack(name: Option<string>, number: nat, from: string -> nat) {
    name.Some? ==> from(Lower(name.value)) == number
  }

  lemma OnOffReadsBack(a: nat)
    ensures ReadsBack(OnOffAttribute(a), a, OnOffNumber)
  {
  }

  lemma LevelReadsBack(a: nat)
    ensures ReadsBack(LevelAttribute(a), a, LevelControlNumber)
  {
  }

  lemma TransitionReadsBack(a: nat)
    ensures ReadsBack(TransitionAttribute(a), a, LevelControlNumber)
  {
  }

  lemma DescriptorReadsBack(a: nat)
    ensures ReadsBack(DescriptorAttribute(a), a, DescriptorNumber)
  {
  }

  lemma NamingReadsBack(a: nat)
    ensures ReadsBack(NamingAttribute(a), a, InformationNumber)
  {
  }

  lemma VersionReadsBack(a: nat)
    ensures ReadsBack(VersionAttribute(a), a, InformationNumber)
  {
  }

  lemma ProductReadsBack(a: nat)
    ensures ReadsBack(ProductAttribute(a), a, InformationNumber)
  {
  }

  lemma IdentityReadsBack(a: nat)
    ensures ReadsBack(IdentityAttribute(a), a, InformationNumber)
  {
  }

  lemma LocaleReadsBack(a: nat)
    ensures ReadsBack(LocaleAttribute(a), a, LocaleNumber)
  {
  }

  lemma TimeFormatReadsBack(a: nat)
    ensures ReadsBack(TimeFormatAttribute(a), a, TimeFormatNumber)
  {
  }

  lemma UnitReadsBack(a: nat)
    ensures ReadsBack(UnitAttribute(a), a, UnitNumber)
  {
  }

  lemma SupplyReadsBack(a: nat)
    ensures ReadsBack(SupplyAttribute(a), a, PowerNumber)
  {
  }

  lemma BatteryReadsBack(a: nat)
    ensures ReadsBack(BatteryAttribute(a), a, PowerNumber)
  {
  }

  lemma ProgressReadsBack(a: nat)
    ensures ReadsBack(ProgressAttribute(a), a, CommissioningNumber)
  {
  }

  lemma RegulatoryReadsBack(a: nat)
    ensures ReadsBack(RegulatoryAttribute(a), a, CommissioningNumber)
  {
  }

  lemma ScanReadsBack(a: nat)
    ensures ReadsBack(ScanAttribute(a), a, NetworkNumber)
  {
  }

  lemma ConnectionReadsBack(a: nat)
    ensures ReadsBack(ConnectionAttribute(a), a, NetworkNumber)
  {
  }

  lemma ErrorReadsBack(a: nat)
    ensures ReadsBack(ErrorAttribute(a), a, NetworkNumber)
  {
  }

  lemma ColorReadsBack(a: nat)
    ensures ReadsBack(ColorAttribute(a), a, ColorNumber)
  {
  }

  lemma TemperatureReadsBack(a: nat)
    ensures ReadsBack(TemperatureAttribute(a), a, TemperatureNumber)
  {
  }

  lemma HumidityReadsBack(a: nat)
    ensures ReadsBack(HumidityAttribute(a), a, HumidityNumber)
  {
  }

  lemma CumulativeReadsBack(a: nat)
    ensures ReadsBack(CumulativeAttribute(a), a, EnergyNumber)
  {
  }

  lemma PeriodicReadsBack(a: nat)
    ensures ReadsBack(PeriodicAttribute(a), a, EnergyNumber)
  {
  }

  lemma ModeReadsBack(a: nat)
    ensures ReadsBack(ModeAttribute(a), a, ElectricalNumber)
  {
  }

  lemma ApparentReadsBack(a: nat)
    ensures ReadsBack(ApparentAttribute(a), a, ElectricalNumber)
  {
  }

  lemma RmsReadsBack(a: nat)
    ensures ReadsBack(RmsAttribute(a), a, ElectricalNumber)
  {
  }

  lemma AttributesReadBack(cluster: nat, attribute: nat)
    ensures ReadsBack(AttributeName(cluster, attribute), attribute, u => AttributeFrom(cluster, u))
  {
    match cluster
    case 6 => OnOffReadsBack(attribute);
    case 8 => LevelReadsBack(attribute); TransitionReadsBack(attribute);
    case 29 => DescriptorReadsBack(attribute);
    case 40 =>
      NamingReadsBack(attribute);
      VersionReadsBack(attribute);
      ProductReadsBack(attribute);
      IdentityReadsBack(attribute);
    case 43 => LocaleReadsBack(attribute);
    case 44 => TimeFormatReadsBack(attribute);
    case 45 => UnitReadsBack(attribute);
    case 47 => SupplyReadsBack(attribute); BatteryReadsBack(attribute);
    case 48 => ProgressReadsBack(attribute); RegulatoryReadsBack(attribute);
    case 49 => ScanReadsBack(attribute); ConnectionReadsBack(attribute); ErrorReadsBack(attribute);
    case 768 => ColorReadsBack(attribute);
    case 1026 => TemperatureReadsBack(attribute);
    case 1029 => HumidityReadsBack(attribute);
    case 144 => CumulativeReadsBack(attribute); PeriodicReadsBack(attribute);
    case 145 => ModeReadsBack(attribute); ApparentReadsBack(attribute); RmsReadsBack(attribute);
    case _ =>
  }
}
