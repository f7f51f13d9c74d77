/** Names and sizes shared by the QoS bootstrap and the default-table builder. */
module QosConstants {

  /** Name of the read-only profile kept as a restore point. */
  const FactoryDefaultName: string := "factory-default"
  /** Name of the editable profile the system row points at. */
  const DefaultName: string := "default"

  /** Key of the trust mode in the system's free-form QoS configuration map. */
  const TrustKey: string := "qos_trust"
  const TrustNone: string := "none"
  const TrustDefault: string := TrustNone

  const MaxLocalPriority: int := 7

  const CosMapEntryCount: nat := 8
  const DscpMapEntryCount: nat := 64

  /** The two profile variants can never be confused by name lookup. */
  lemma ProfileNamesDistinct()
    ensures DefaultName != FactoryDefaultName
  {
  }
}
