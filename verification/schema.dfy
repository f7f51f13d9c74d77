/**
 * The tables of the configuration database that the QoS bootstrap reads and writes.
 *
 * A table is a sequence of rows and a row's id is its position, so inserting a row
 * appends it and hands out the id |table|. The bootstrap never deletes rows, so ids stay
 * valid; rows that lose their last reference are simply no longer reachable.
 */
module Schema {
  import opened Wrappers
  import opened Association

  type Id = nat

  /**
   * A named profile, used for both profile tables: queue profiles (`q_profile`, whose
   * entries map a queue to the local priorities it serves) and schedule profiles (`qos`,
   * whose entries map a queue to its scheduling algorithm). `entries` maps queue numbers
   * to row ids in the matching entry table.
   */
  datatype Profile = Profile(name: string, entries: Assoc<int, Id>, hwDefault: Option<bool>)

  /** A `q_profile_entry` row: the local priorities served by one queue. */
  datatype QueueMapEntry = QueueMapEntry(localPriorities: seq<int>, hwDefault: Option<bool>)

  datatype Algorithm = Strict | Wrr

  /** A `queue` row; `weight` is an optional column, so it holds zero or one value. */
  datatype Queue = Queue(algorithm: Option<Algorithm>, weight: seq<int>, hwDefault: Option<bool>)

  /** Keys of the `hw_defaults` string map that keeps a map entry's factory values. */
  datatype HwDefaultsKey = CodePointKey | LocalPriorityKey | PriorityCodePointKey | ColorKey | DescriptionKey

  datatype CosMapEntry = CosMapEntry(
    codePoint: int,
    localPriority: int,
    color: string,
    description: string,
    hwDefaults: map<HwDefaultsKey, string>)

  /** `priority_code_point` is an optional column: zero or one value. */
  datatype DscpMapEntry = DscpMapEntry(
    codePoint: int,
    localPriority: int,
    priorityCodePoint: seq<int>,
    color: string,
    description: string,
    hwDefaults: map<HwDefaultsKey, string>)

  /** The switch-wide `system` row, restricted to its QoS columns. */
  datatype SystemRow = SystemRow(
    queueProfile: Option<Id>,
    scheduleProfile: Option<Id>,
    cosMap: seq<Id>,
    dscpMap: seq<Id>,
    qosConfig: map<string, string>)

  datatype Store = Store(
    queueProfiles: seq<Profile>,
    queueMapEntries: seq<QueueMapEntry>,
    scheduleProfiles: seq<Profile>,
    queues: seq<Queue>,
    cosMapEntries: seq<CosMapEntry>,
    dscpMapEntries: seq<DscpMapEntry>,
    system: SystemRow)

  /** Outcome of a profile command: `error` is the C function's `true` return. */
  datatype CommandResult = CommandResult(error: bool, store: Store)

  /** Column values of a freshly inserted row, before any setter runs. */
  const FreshQueueMapEntry: QueueMapEntry := QueueMapEntry([], None)
  const FreshQueue: Queue := Queue(None, [], None)
  const FreshCosMapEntry: CosMapEntry := CosMapEntry(0, 0, "", "", map[])
  const FreshDscpMapEntry: DscpMapEntry := DscpMapEntry(0, 0, [], "", "", map[])

  function FreshProfile(name: string): Profile {
    Profile(name, [], None)
  }

  /** Every entry id held by a profile names an existing row of an n-row table. */
  predicate EntriesIn(profiles: seq<Profile>, n: nat) {
    forall i, j :: 0 <= i < |profiles| && 0 <= j < |profiles[i].entries| ==>
      profiles[i].entries[j].value < n
  }

  /** The queue-profile references resolve, as C pointers always do. */
  predicate QueueProfileRefsValid(s: Store) {
    EntriesIn(s.queueProfiles, |s.queueMapEntries|)
  }

  /** The schedule-profile references resolve, as C pointers always do. */
  predicate ScheduleProfileRefsValid(s: Store) {
    EntriesIn(s.scheduleProfiles, |s.queues|)
  }
}
