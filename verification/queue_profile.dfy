/**
 * Queue profiles (`q_profile` rows): which local priorities each queue serves.
 * Entries are only ever added to: a priority is appended to a queue's list unless it
 * is already there, and a queue gets a fresh entry row the first time it is mapped.
 */
module QueueProfile {
  import opened Wrappers
  import opened Association
  import opened Schema
  import opened Profiles
  import opened Sequences

  function ContainsFrom(xs: seq<int>, p: int, i: nat): (b: bool)
    requires i <= |xs|
    ensures b <==> exists j :: i <= j < |xs| && xs[j] == p
    decreases |xs| - i
  {
    if i == |xs| then false
    else if xs[i] == p then true
    else ContainsFrom(xs, p, i + 1)
  }

  /** Linear scan of the entry's local priorities for p. */
  function HasLocalPriority(entry: QueueMapEntry, p: int): (b: bool)
    ensures b <==> p in entry.localPriorities
  {
    ContainsFrom(entry.localPriorities, p, 0)
  }

  /** No local priority occurs twice in the list. */
  predicate Distinct(xs: seq<int>) {
    forall i, j :: 0 <= i < j < |xs| ==> xs[i] != xs[j]
  }

  /**
   * Adds p to the entry's local priorities unless it is already present. The list
   * only grows at its end, by at most p, and ends up holding exactly the old
   * priorities and p.
   */
  function AddLocalPriority(entry: QueueMapEntry, p: int): (r: QueueMapEntry)
    ensures forall x :: x in r.localPriorities <==> x in entry.localPriorities || x == p
    ensures entry.localPriorities <= r.localPriorities
    ensures |r.localPriorities| <= |entry.localPriorities| + 1
    ensures r.hwDefault == entry.hwDefault
    ensures p in entry.localPriorities ==> r == entry
    ensures Distinct(entry.localPriorities) ==> Distinct(r.localPriorities)
  {
    if HasLocalPriority(entry, p) then entry
    else entry.(localPriorities := entry.localPriorities + [p])
  }

  /**
   * Find-or-create of a queue profile. It never reports an error; afterwards a profile
   * with that name exists, and when one existed already nothing changes.
   */
  function QueueProfileCommand(s: Store, name: string): (r: CommandResult)
    ensures !r.error
    ensures FindProfile(r.store.queueProfiles, name).Some?
    ensures FindProfile(s.queueProfiles, name).Some? ==> r.store == s
    ensures FindProfile(s.queueProfiles, name).None? ==>
      r.store.queueProfiles == s.queueProfiles + [FreshProfile(name)]
    ensures r.store == s.(queueProfiles := r.store.queueProfiles)
    ensures QueueProfileRefsValid(s) ==> QueueProfileRefsValid(r.store)
  {
    var t := ProfileCommand(s.queueProfiles, name);
    assert FindProfile(s.queueProfiles, name).None? ==> t == s.queueProfiles + [FreshProfile(name)] by {
      if FindProfile(s.queueProfiles, name).None? {
        assert t == t[..|s.queueProfiles|] + [t[|s.queueProfiles|]];
      }
    }
    assert QueueProfileRefsValid(s) ==> EntriesIn(t, |s.queueMapEntries|) by {
      if QueueProfileRefsValid(s) {
        ProfileCommandKeepsEntriesIn(s.queueProfiles, name, |s.queueMapEntries|);
      }
    }
    CommandResult(false, s.(queueProfiles := t))
  }

  /** The entry row the profile named `name` holds for queue q, if any. */
  function EntryOf(s: Store, name: string, q: int): Option<Id> {
    match FindProfile(s.queueProfiles, name)
    case None => None
    case Some(pid) => Get(s.queueProfiles[pid].entries, q)
  }

  /** The profile named `name` has an entry for queue q and it lists local priority lp. */
  predicate MapsPriority(s: Store, name: string, q: int, lp: int) {
    match EntryOf(s, name, q)
    case None => false
    case Some(e) => e < |s.queueMapEntries| && lp in s.queueMapEntries[e].localPriorities
  }

  /**
   * Maps local priority lp to queue q in the profile named `name`. A missing profile
   * is an error and changes nothing. Otherwise the queue's entry is reused or, if it
   * has none, created, and lp is added to it; only the two queue-profile tables change.
   */
  function QueueProfileMapCommand(s: Store, name: string, q: int, lp: int): (r: CommandResult)
    requires QueueProfileRefsValid(s)
    ensures QueueProfileRefsValid(r.store)
    ensures r.error <==> FindProfile(s.queueProfiles, name).None?
    ensures r.error ==> r.store == s
    ensures FindProfile(r.store.queueProfiles, name) == FindProfile(s.queueProfiles, name)
    ensures !r.error ==> MapsPriority(r.store, name, q, lp)
    ensures !r.error && EntryOf(s, name, q).Some? ==>
      r.store.queueProfiles == s.queueProfiles
    ensures !r.error && EntryOf(s, name, q).Some? ==>
      && EntryOf(s, name, q).value < |s.queueMapEntries|
      && r.store.queueMapEntries == s.queueMapEntries[EntryOf(s, name, q).value :=
           AddLocalPriority(s.queueMapEntries[EntryOf(s, name, q).value], lp)]
    ensures !r.error && EntryOf(s, name, q).None? ==>
      r.store.queueMapEntries == s.queueMapEntries + [QueueMapEntry([lp], None)]
    ensures r.store == s.(queueProfiles := r.store.queueProfiles, queueMapEntries := r.store.queueMapEntries)
  {
    match FindProfile(s.queueProfiles, name)
    case None => CommandResult(true, s)
    case Some(pid) =>
      var u := UpsertEntry(s.queueProfiles, s.queueMapEntries, pid, q, FreshQueueMapEntry);
      var entries := u.entries[u.entry := AddLocalPriority(u.entries[u.entry], lp)];
      var s' := s.(queueProfiles := u.profiles, queueMapEntries := entries);
      FindStable(s.queueProfiles, u.profiles, name);
      if EntryOf(s, name, q).None? then
        assert u.entries == s.queueMapEntries + [FreshQueueMapEntry] && u.entry == |s.queueMapEntries|;
        assert AddLocalPriority(FreshQueueMapEntry, lp) == QueueMapEntry([lp], None);
        UpdateLast(s.queueMapEntries, FreshQueueMapEntry, QueueMapEntry([lp], None));
        CommandResult(false, s')
      else
        CommandResult(false, s')
  }

  /**
   * A map command touches no entry row but the one queue q resolves to, and adds at
   * most one row: the priority lists of all other queues stay as they were.
   */
  lemma MapCommandKeepsOthers(s: Store, name: string, q: int, lp: int)
    requires QueueProfileRefsValid(s)
    ensures var r := QueueProfileMapCommand(s, name, q, lp);
      && |s.queueMapEntries| <= |r.store.queueMapEntries| <= |s.queueMapEntries| + 1
      && forall e :: 0 <= e < |s.queueMapEntries| && Some(e) != EntryOf(s, name, q) ==>
           r.store.queueMapEntries[e] == s.queueMapEntries[e]
  {
  }

  /**
   * t' keeps every profile of t under its name and hw_default, only extends each
   * association at its end, and its new profiles carry no hw_default.
   */
  ghost predicate ProfilesGrow(t: seq<Profile>, t': seq<Profile>) {
    && |t| <= |t'|
    && (forall i :: 0 <= i < |t| ==>
          && t'[i].name == t[i].name
          && t'[i].hwDefault == t[i].hwDefault
          && t[i].entries <= t'[i].entries)
    && (forall i :: |t| <= i < |t'| ==> t'[i].hwDefault == None)
  }

  /**
   * es' keeps every entry row of es, only extends its priority list at the end and keeps
   * its hw_default; new rows carry no hw_default.
   */
  ghost predicate EntriesGrow(es: seq<QueueMapEntry>, es': seq<QueueMapEntry>) {
    && |es| <= |es'|
    && (forall e :: 0 <= e < |es| ==>
          && es[e].localPriorities <= es'[e].localPriorities
          && es'[e].hwDefault == es[e].hwDefault)
    && (forall e :: |es| <= e < |es'| ==> es'[e].hwDefault == None)
  }

  /** s' is s with only the queue-profile tables changed, and those only grown. */
  ghost predicate Grows(s: Store, s': Store) {
    && s' == s.(queueProfiles := s'.queueProfiles, queueMapEntries := s'.queueMapEntries)
    && ProfilesGrow(s.queueProfiles, s'.queueProfiles)
    && EntriesGrow(s.queueMapEntries, s'.queueMapEntries)
  }

  lemma GrowsTransitive(s1: Store, s2: Store, s3: Store)
    requires Grows(s1, s2) && Grows(s2, s3)
    ensures Grows(s1, s3)
  {
    assert ProfilesGrow(s1.queueProfiles, s3.queueProfiles) by {
      forall i | 0 <= i < |s1.queueProfiles|
        ensures s1.queueProfiles[i].entries <= s3.queueProfiles[i].entries
      {
        assert s1.queueProfiles[i].entries <= s2.queueProfiles[i].entries;
      }
    }
    assert EntriesGrow(s1.queueMapEntries, s3.queueMapEntries) by {
      forall e | 0 <= e < |s1.queueMapEntries|
        ensures s1.queueMapEntries[e].localPriorities <= s3.queueMapEntries[e].localPriorities
      {
        assert s1.queueMapEntries[e].localPriorities <= s2.queueMapEntries[e].localPriorities;
      }
    }
  }

  /** Growth never takes back a priority-to-queue mapping. */
  lemma GrowsKeepsMapping(s: Store, s': Store, name: string, q: int, lp: int)
    requires Grows(s, s')
    requires MapsPriority(s, name, q, lp)
    ensures MapsPriority(s', name, q, lp)
  {
    assert KeepsNames(s.queueProfiles, s'.queueProfiles);
    FindStable(s.queueProfiles, s'.queueProfiles, name);
    var pid := FindProfile(s.queueProfiles, name).value;
    var a := s.queueProfiles[pid].entries;
    var a' := s'.queueProfiles[pid].entries;
    assert a' == a + a'[|a|..];
    GetExtend(a, a'[|a|..], q);
  }

  lemma QueueProfileCommandGrows(s: Store, name: string)
    ensures Grows(s, QueueProfileCommand(s, name).store)
  {
    var t := s.queueProfiles;
    var t' := QueueProfileCommand(s, name).store.queueProfiles;
    assert forall i :: 0 <= i < |t| ==> t'[i] == t[i];
  }

  lemma ExtendOneProfileGrows(t: seq<Profile>, pid: Id, a: Assoc<int, Id>)
    requires pid < |t|
    requires t[pid].entries <= a
    ensures ProfilesGrow(t, t[pid := t[pid].(entries := a)])
  {
  }

  lemma AddPriorityGrows(es: seq<QueueMapEntry>, e: Id, lp: int)
    requires e < |es|
    ensures EntriesGrow(es, es[e := AddLocalPriority(es[e], lp)])
  {
  }

  lemma AppendFreshEntriesGrow(es: seq<QueueMapEntry>, es': seq<QueueMapEntry>)
    requires es <= es'
    requires forall e :: |es| <= e < |es'| ==> es'[e] == FreshQueueMapEntry
    ensures EntriesGrow(es, es')
  {
  }

  lemma EntriesGrowTransitive(es1: seq<QueueMapEntry>, es2: seq<QueueMapEntry>, es3: seq<QueueMapEntry>)
    requires EntriesGrow(es1, es2) && EntriesGrow(es2, es3)
    ensures EntriesGrow(es1, es3)
  {
    forall e | 0 <= e < |es1|
      ensures es1[e].localPriorities <= es3[e].localPriorities
    {
      assert es1[e].localPriorities <= es2[e].localPriorities;
    }
  }

  /** A map command only ever grows the queue-profile tables. */
  lemma MapCommandGrows(s: Store, name: string, q: int, lp: int)
    requires QueueProfileRefsValid(s)
    ensures Grows(s, QueueProfileMapCommand(s, name, q, lp).store)
  {
    var r := QueueProfileMapCommand(s, name, q, lp);
    if !r.error {
      var pid := FindProfile(s.queueProfiles, name).value;
      var u := UpsertEntry(s.queueProfiles, s.queueMapEntries, pid, q, FreshQueueMapEntry);
      assert r.store.queueProfiles == u.profiles;
      ExtendOneProfileGrows(s.queueProfiles, pid, u.profiles[pid].entries);
      AppendFreshEntriesGrow(s.queueMapEntries, u.entries);
      AddPriorityGrows(u.entries, u.entry, lp);
      EntriesGrowTransitive(s.queueMapEntries, u.entries, r.store.queueMapEntries);
    }
  }

  /** Mapping a priority that is already mapped changes nothing: the command is idempotent. */
  lemma MapCommandIdempotent(s: Store, name: string, q: int, lp: int)
    requires QueueProfileRefsValid(s)
    ensures var s1 := QueueProfileMapCommand(s, name, q, lp).store;
      QueueProfileMapCommand(s1, name, q, lp).store == s1
  {
    var s1 := QueueProfileMapCommand(s, name, q, lp).store;
    if FindProfile(s.queueProfiles, name).Some? {
      var pid := FindProfile(s1.queueProfiles, name).value;
      var e := Get(s1.queueProfiles[pid].entries, q).value;
      assert lp in s1.queueMapEntries[e].localPriorities;
      assert s1.queueMapEntries[e := AddLocalPriority(s1.queueMapEntries[e], lp)] == s1.queueMapEntries;
    }
  }

  /**
   * The map command keeps a profile's queue keys unique and each queue's priority list
   * free of repeats.
   */
  lemma MapCommandNoDuplicates(s: Store, name: string, q: int, lp: int)
    requires QueueProfileRefsValid(s)
    requires FindProfile(s.queueProfiles, name).Some?
    requires NoDuplicateKeys(s.queueProfiles[FindProfile(s.queueProfiles, name).value].entries)
    requires forall e :: 0 <= e < |s.queueMapEntries| ==> Distinct(s.queueMapEntries[e].localPriorities)
    ensures var s1 := QueueProfileMapCommand(s, name, q, lp).store;
      && FindProfile(s1.queueProfiles, name) == FindProfile(s.queueProfiles, name)
      && NoDuplicateKeys(s1.queueProfiles[FindProfile(s.queueProfiles, name).value].entries)
      && forall e :: 0 <= e < |s1.queueMapEntries| ==> Distinct(s1.queueMapEntries[e].localPriorities)
  {
    var pid := FindProfile(s.queueProfiles, name).value;
    var u := UpsertEntry(s.queueProfiles, s.queueMapEntries, pid, q, FreshQueueMapEntry);
    FindStable(s.queueProfiles, u.profiles, name);
    forall e | 0 <= e < |u.entries|
      ensures Distinct(u.entries[e].localPriorities)
    {
      if e >= |s.queueMapEntries| {
        assert u.entries[e] == FreshQueueMapEntry;
      } else {
        assert u.entries[e] == s.queueMapEntries[e];
      }
    }
  }

  /** One call of the map command in a fixed bootstrap list. */
  datatype PriorityMapping = PriorityMapping(queue: int, localPriority: int)

  /** Queue N serves local priority N, issued from queue 7 down to queue 0. */
  const DefaultQueueMapping: seq<PriorityMapping> := [
    PriorityMapping(7, 7),
    PriorityMapping(6, 6),
    PriorityMapping(5, 5),
    PriorityMapping(4, 4),
    PriorityMapping(3, 3),
    PriorityMapping(2, 2),
    PriorityMapping(1, 1),
    PriorityMapping(0, 0)
  ]

  /** The bootstrap list names each queue once. */
  lemma DefaultQueueMappingDistinct()
    ensures DistinctQueues(DefaultQueueMapping)
  {
  }

  /**
   * The bootstrap list maps each queue to the local priority of the same number, names
   * every queue 0..7 exactly once, and runs from queue 7 down to queue 0.
   */
  lemma DefaultQueueMappingIsIdentity()
    ensures |DefaultQueueMapping| == 8
    ensures forall i :: 0 <= i < 8 ==> DefaultQueueMapping[i] == PriorityMapping(7 - i, 7 - i)
    ensures DistinctQueues(DefaultQueueMapping)
  {
  }

  /**
   * The map commands of ms, in order, on the profile named `name`; error returns are
   * ignored. (The store is part of the termination measure only so that the verifier
   * does not unfold this fold eagerly over the literal bootstrap list.)
   */
  function MapAll(s: Store, name: string, ms: seq<PriorityMapping>): (s': Store)
    requires QueueProfileRefsValid(s)
    ensures QueueProfileRefsValid(s')
    ensures FindProfile(s'.queueProfiles, name) == FindProfile(s.queueProfiles, name)
    ensures s' == s.(queueProfiles := s'.queueProfiles, queueMapEntries := s'.queueMapEntries)
    decreases |ms|, s
  {
    if |ms| == 0 then s
    else MapAll(QueueProfileMapCommand(s, name, ms[0].queue, ms[0].localPriority).store, name, ms[1..])
  }

  /** Find-or-create the profile, then map each queue N to local priority N. */
  function QueueProfileCreateFactoryDefault(s: Store, name: string): (s': Store)
    requires QueueProfileRefsValid(s)
    ensures QueueProfileRefsValid(s')
    ensures FindProfile(s'.queueProfiles, name).Some?
    ensures s' == s.(queueProfiles := s'.queueProfiles, queueMapEntries := s'.queueMapEntries)
  {
    MapAll(QueueProfileCommand(s, name).store, name, DefaultQueueMapping)
  }

  lemma {:induction false} MapAllGrows(s: Store, name: string, ms: seq<PriorityMapping>)
    requires QueueProfileRefsValid(s)
    ensures Grows(s, MapAll(s, name, ms))
    decreases |ms|
  {
    if |ms| > 0 {
      var s1 := QueueProfileMapCommand(s, name, ms[0].queue, ms[0].localPriority).store;
      MapCommandGrows(s, name, ms[0].queue, ms[0].localPriority);
      MapAllGrows(s1, name, ms[1..]);
      GrowsTransitive(s, s1, MapAll(s1, name, ms[1..]));
    }
  }

  /** When the profile exists, every mapping of ms holds afterwards. */
  lemma {:induction false} MapAllMaps(s: Store, name: string, ms: seq<PriorityMapping>)
    requires QueueProfileRefsValid(s)
    requires FindProfile(s.queueProfiles, name).Some?
    ensures forall m :: m in ms ==> MapsPriority(MapAll(s, name, ms), name, m.queue, m.localPriority)
    decreases |ms|
  {
    if |ms| > 0 {
      var s1 := QueueProfileMapCommand(s, name, ms[0].queue, ms[0].localPriority).store;
      assert MapAll(s, name, ms) == MapAll(s1, name, ms[1..]);
      MapAllMapsHead(s, name, ms);
      MapAllMaps(s1, name, ms[1..]);
      assert forall m :: m in ms ==> m == ms[0] || m in ms[1..];
    }
  }

  /** The first mapping of ms survives the later ones. */
  lemma MapAllMapsHead(s: Store, name: string, ms: seq<PriorityMapping>)
    requires QueueProfileRefsValid(s)
    requires FindProfile(s.queueProfiles, name).Some?
    requires 0 < |ms|
    ensures MapsPriority(MapAll(s, name, ms), name, ms[0].queue, ms[0].localPriority)
  {
    var s1 := QueueProfileMapCommand(s, name, ms[0].queue, ms[0].localPriority).store;
    var s' := MapAll(s1, name, ms[1..]);
    assert MapAll(s, name, ms) == s';
    MapAllGrows(s1, name, ms[1..]);
    GrowsKeepsMapping(s1, s', name, ms[0].queue, ms[0].localPriority);
  }

  /** The profile named `name` links entry row e. */
  ghost predicate LinksEntry(s: Store, name: string, e: Id) {
    match FindProfile(s.queueProfiles, name)
    case None => false
    case Some(pid) => e in Values(s.queueProfiles[pid].entries)
  }

  /**
   * s' differs from s at most in the profiles named `name` and in the entry rows that
   * the profile `name` links in s'; both tables may grow.
   */
  ghost predicate TouchesOnly(s: Store, s': Store, name: string) {
    && |s.queueProfiles| <= |s'.queueProfiles|
    && |s.queueMapEntries| <= |s'.queueMapEntries|
    && (forall i :: 0 <= i < |s.queueProfiles| && s.queueProfiles[i].name != name ==>
          s'.queueProfiles[i] == s.queueProfiles[i])
    && (forall e :: 0 <= e < |s.queueMapEntries| && !LinksEntry(s', name, e) ==>
          s'.queueMapEntries[e] == s.queueMapEntries[e])
  }

  /** Growth never unlinks an entry row from a profile. */
  lemma GrowsKeepsLinks(s: Store, s': Store, name: string, e: Id)
    requires Grows(s, s')
    requires LinksEntry(s, name, e)
    ensures LinksEntry(s', name, e)
  {
    assert KeepsNames(s.queueProfiles, s'.queueProfiles);
    FindStable(s.queueProfiles, s'.queueProfiles, name);
    var pid := FindProfile(s.queueProfiles, name).value;
    var a := s.queueProfiles[pid].entries;
    var a' := s'.queueProfiles[pid].entries;
    var j :| 0 <= j < |a| && Values(a)[j] == e;
    assert a'[j] == a[j];
    assert Values(a')[j] == e;
  }

  lemma TouchesOnlyTransitive(s1: Store, s2: Store, s3: Store, name: string)
    requires TouchesOnly(s1, s2, name) && TouchesOnly(s2, s3, name)
    requires Grows(s2, s3)
    ensures TouchesOnly(s1, s3, name)
  {
    forall e | 0 <= e < |s1.queueMapEntries| && !LinksEntry(s3, name, e)
      ensures s3.queueMapEntries[e] == s1.queueMapEntries[e]
    {
      if LinksEntry(s2, name, e) {
        GrowsKeepsLinks(s2, s3, name, e);
      }
    }
  }

  /**
   * A map command changes no profile of another name, and no entry row except those the
   * profile links afterwards.
   */
  lemma MapCommandTouchesOnly(s: Store, name: string, q: int, lp: int)
    requires QueueProfileRefsValid(s)
    ensures TouchesOnly(s, QueueProfileMapCommand(s, name, q, lp).store, name)
  {
    var r := QueueProfileMapCommand(s, name, q, lp);
    MapCommandKeepsOthers(s, name, q, lp);
    if !r.error {
      var pid := FindProfile(s.queueProfiles, name).value;
      var u := UpsertEntry(s.queueProfiles, s.queueMapEntries, pid, q, FreshQueueMapEntry);
      assert r.store.queueProfiles == u.profiles;
      match EntryOf(s, name, q)
      case None =>
      case Some(e0) =>
        PairValue(s.queueProfiles[pid].entries, q, e0);
        MapCommandGrows(s, name, q, lp);
        GrowsKeepsLinks(s, r.store, name, e0);
    }
  }

  lemma {:induction false} MapAllTouchesOnly(s: Store, name: string, ms: seq<PriorityMapping>)
    requires QueueProfileRefsValid(s)
    ensures TouchesOnly(s, MapAll(s, name, ms), name)
    decreases |ms|
  {
    if |ms| > 0 {
      var s1 := QueueProfileMapCommand(s, name, ms[0].queue, ms[0].localPriority).store;
      var s' := MapAll(s1, name, ms[1..]);
      assert MapAll(s, name, ms) == s';
      MapCommandTouchesOnly(s, name, ms[0].queue, ms[0].localPriority);
      MapAllTouchesOnly(s1, name, ms[1..]);
      MapAllGrows(s1, name, ms[1..]);
      TouchesOnlyTransitive(s, s1, s', name);
    }
  }

  /**
   * The builder changes no profile of another name and no entry row except those the
   * built profile links afterwards; every row keeps its hw_default.
   */
  lemma CreateFactoryDefaultTouchesOnly(s: Store, name: string)
    requires QueueProfileRefsValid(s)
    ensures TouchesOnly(s, QueueProfileCreateFactoryDefault(s, name), name)
    ensures Grows(s, QueueProfileCreateFactoryDefault(s, name))
  {
    var c := QueueProfileCommand(s, name).store;
    assert forall i :: 0 <= i < |s.queueProfiles| ==> c.queueProfiles[i] == s.queueProfiles[i];
    assert TouchesOnly(s, c, name);
    QueueProfileCommandGrows(s, name);
    MapAllTouchesOnly(c, name, DefaultQueueMapping);
    MapAllGrows(c, name, DefaultQueueMapping);
    TouchesOnlyTransitive(s, c, QueueProfileCreateFactoryDefault(s, name), name);
    GrowsTransitive(s, c, QueueProfileCreateFactoryDefault(s, name));
  }

  /** The pairs appended for ms when each queue gets a fresh row, numbered from base. */
  function AppendedPairs(ms: seq<PriorityMapping>, base: nat): (a: Assoc<int, Id>)
    ensures |a| == |ms|
  {
    NumberedPairs(ms, MappingQueue, base)
  }

  /** The queue a mapping command names. */
  function MappingQueue(m: PriorityMapping): int {
    m.queue
  }

  function AppendedEntries(ms: seq<PriorityMapping>): (es: seq<QueueMapEntry>)
    ensures |es| == |ms|
  {
    seq(|ms|, i requires 0 <= i < |ms| => QueueMapEntry([ms[i].localPriority], None))
  }

  lemma AppendedUnfold(ms: seq<PriorityMapping>, base: nat)
    requires 0 < |ms|
    ensures AppendedPairs(ms, base) == [Pair(ms[0].queue, base)] + AppendedPairs(ms[1..], base + 1)
    ensures AppendedEntries(ms) == [QueueMapEntry([ms[0].localPriority], None)] + AppendedEntries(ms[1..])
  {
    assert AppendedPairs(ms, base) == [Pair(ms[0].queue, base)] + AppendedPairs(ms[1..], base + 1) by {
      NumberedPairsUnfold(ms, MappingQueue, base);
      assert MappingQueue(ms[0]) == ms[0].queue;
    }
    var es := AppendedEntries(ms);
    var fs := [QueueMapEntry([ms[0].localPriority], None)] + AppendedEntries(ms[1..]);
    forall i | 0 < i < |es|
      ensures es[i] == fs[i]
    {
      assert ms[1..][i - 1] == ms[i];
    }
  }

  /** No two mappings of ms name the same queue. */
  predicate DistinctQueues(ms: seq<PriorityMapping>) {
    DistinctBy(ms, MappingQueue)
  }

  /**
   * Mapping a queue the profile has no entry for appends the pair (q, next row id) and
   * one fresh entry row listing only lp.
   */
  lemma MapCommandFresh(s: Store, name: string, q: int, lp: int)
    requires QueueProfileRefsValid(s)
    requires FindProfile(s.queueProfiles, name).Some?
    requires q !in Keys(s.queueProfiles[FindProfile(s.queueProfiles, name).value].entries)
    ensures var pid := FindProfile(s.queueProfiles, name).value;
      var p := s.queueProfiles[pid];
      var s1 := QueueProfileMapCommand(s, name, q, lp).store;
      && s1.queueProfiles == s.queueProfiles[pid := p.(entries := p.entries + [Pair(q, |s.queueMapEntries|)])]
      && s1.queueMapEntries == s.queueMapEntries + [QueueMapEntry([lp], None)]
      && FindProfile(s1.queueProfiles, name) == Some(pid)
  {
    var pid := FindProfile(s.queueProfiles, name).value;
    var p := s.queueProfiles[pid];
    var u := UpsertEntry(s.queueProfiles, s.queueMapEntries, pid, q, FreshQueueMapEntry);
    assert u.entries == s.queueMapEntries + [FreshQueueMapEntry] && u.entry == |s.queueMapEntries|;
    var added := AddLocalPriority(FreshQueueMapEntry, lp);
    assert added == QueueMapEntry([lp], None);
    var s1 := QueueProfileMapCommand(s, name, q, lp).store;
    assert s1.queueProfiles == u.profiles;
    assert s1.queueMapEntries == u.entries[u.entry := added];
    UpdateLast(s.queueMapEntries, FreshQueueMapEntry, added);
    FindUpdated(s.queueProfiles, pid, p.(entries := p.entries + [Pair(q, |s.queueMapEntries|)]), name);
  }

  /**
   * On a profile that has none of the queues of ms yet, and with each queue named once,
   * the map commands append exactly one fresh entry row per mapping, holding just its
   * priority, and one pair per mapping to the profile, in order.
   */
  lemma {:induction false} MapAllAppends(s: Store, name: string, ms: seq<PriorityMapping>)
    requires QueueProfileRefsValid(s)
    requires FindProfile(s.queueProfiles, name).Some?
    requires DistinctQueues(ms)
    requires forall i :: 0 <= i < |ms| ==>
      ms[i].queue !in Keys(s.queueProfiles[FindProfile(s.queueProfiles, name).value].entries)
    ensures var pid := FindProfile(s.queueProfiles, name).value;
      var p := s.queueProfiles[pid];
      var s' := MapAll(s, name, ms);
      && s'.queueProfiles == s.queueProfiles[pid := p.(entries := p.entries + AppendedPairs(ms, |s.queueMapEntries|))]
      && s'.queueMapEntries == s.queueMapEntries + AppendedEntries(ms)
    decreases |ms|
  {
    var pid := FindProfile(s.queueProfiles, name).value;
    var p := s.queueProfiles[pid];
    var base := |s.queueMapEntries|;
    if |ms| == 0 {
      assert p.entries + AppendedPairs(ms, base) == p.entries;
      assert s.queueProfiles[pid := p] == s.queueProfiles;
    } else {
      var m := ms[0];
      var s1 := QueueProfileMapCommand(s, name, m.queue, m.localPriority).store;
      MapCommandFresh(s, name, m.queue, m.localPriority);
      RestStaysFresh(p.entries, base, ms, MappingQueue);
      MapAllAppends(s1, name, ms[1..]);
      assert MapAll(s, name, ms) == MapAll(s1, name, ms[1..]);
      AppendsStep(s.queueProfiles, s.queueMapEntries, pid, ms, s1, MapAll(s1, name, ms[1..]));
    }
  }

  /** Chaining one fresh map command with the appends of the remaining ones. */
  lemma AppendsStep(t: seq<Profile>, es: seq<QueueMapEntry>, pid: Id, ms: seq<PriorityMapping>, s1: Store, s': Store)
    requires pid < |t| && 0 < |ms|
    requires s1.queueProfiles == t[pid := t[pid].(entries := t[pid].entries + [Pair(ms[0].queue, |es|)])]
    requires s1.queueMapEntries == es + [QueueMapEntry([ms[0].localPriority], None)]
    requires s'.queueProfiles == s1.queueProfiles[pid := s1.queueProfiles[pid].(entries := s1.queueProfiles[pid].entries + AppendedPairs(ms[1..], |s1.queueMapEntries|))]
    requires s'.queueMapEntries == s1.queueMapEntries + AppendedEntries(ms[1..])
    ensures s'.queueProfiles == t[pid := t[pid].(entries := t[pid].entries + AppendedPairs(ms, |es|))]
    ensures s'.queueMapEntries == es + AppendedEntries(ms)
  {
    var p := t[pid];
    var base := |es|;
    var a1 := p.entries + [Pair(ms[0].queue, base)];
    AppendedUnfold(ms, base);
    ConcatAssoc(p.entries, [Pair(ms[0].queue, base)], AppendedPairs(ms[1..], base + 1));
    ConcatAssoc(es, [QueueMapEntry([ms[0].localPriority], None)], AppendedEntries(ms[1..]));
    UpdateTwice(t, pid, p.(entries := a1), p.(entries := a1 + AppendedPairs(ms[1..], base + 1)));
  }

  /**
   * After the factory-default builder the profile exists and maps each queue N in 0..7
   * to local priority N, and the queue-profile tables have only grown.
   */
  lemma CreateFactoryDefaultMaps(s: Store, name: string)
    requires QueueProfileRefsValid(s)
    ensures var s' := QueueProfileCreateFactoryDefault(s, name);
      && FindProfile(s'.queueProfiles, name).Some?
      && (forall q :: 0 <= q < 8 ==> MapsPriority(s', name, q, q))
      && Grows(s, s')
  {
    var s1 := QueueProfileCommand(s, name).store;
    var s' := QueueProfileCreateFactoryDefault(s, name);
    assert s' == MapAll(s1, name, DefaultQueueMapping);
    QueueProfileCommandGrows(s, name);
    MapAllGrows(s1, name, DefaultQueueMapping);
    GrowsTransitive(s, s1, s');
    MapAllMaps(s1, name, DefaultQueueMapping);
    DefaultQueueMappingCovers();
    MapsEveryCovered(s', name, DefaultQueueMapping);
  }

  /** Every queue 0..7 appears in the bootstrap list mapped to itself. */
  lemma DefaultQueueMappingCovers()
    ensures forall q :: 0 <= q < 8 ==> PriorityMapping(q, q) in DefaultQueueMapping
  {
    DefaultQueueMappingIsIdentity();
    forall q | 0 <= q < 8
      ensures PriorityMapping(q, q) in DefaultQueueMapping
    {
      assert DefaultQueueMapping[7 - q] == PriorityMapping(q, q);
    }
  }

  lemma MapsEveryCovered(s: Store, name: string, ms: seq<PriorityMapping>)
    requires forall m :: m in ms ==> MapsPriority(s, name, m.queue, m.localPriority)
    requires forall q :: 0 <= q < 8 ==> PriorityMapping(q, q) in ms
    ensures forall q :: 0 <= q < 8 ==> MapsPriority(s, name, q, q)
  {
    forall q | 0 <= q < 8
      ensures MapsPriority(s, name, q, q)
    {
      var m := PriorityMapping(q, q);
      assert m in ms;
    }
  }

  /**
   * When the profile is new, the builder appends it with entries for exactly queues
   * 7, 6, ..., 0, in that order, each a fresh row listing only its own number.
   */
  lemma CreateFactoryDefaultFresh(s: Store, name: string)
    requires QueueProfileRefsValid(s)
    requires FindProfile(s.queueProfiles, name).None?
    ensures var s' := QueueProfileCreateFactoryDefault(s, name);
      && FindProfile(s'.queueProfiles, name) == Some(|s.queueProfiles|)
      && s'.queueProfiles == s.queueProfiles + [Profile(name, AppendedPairs(DefaultQueueMapping, |s.queueMapEntries|), None)]
      && s'.queueMapEntries == s.queueMapEntries + AppendedEntries(DefaultQueueMapping)
  {
    var s1 := QueueProfileCommand(s, name).store;
    FindAppended(s.queueProfiles, FreshProfile(name));
    DefaultQueueMappingDistinct();
    MapAllOnEmpty(s1, name, |s.queueProfiles|, DefaultQueueMapping);
    var p := Profile(name, AppendedPairs(DefaultQueueMapping, |s.queueMapEntries|), None);
    UpdateLast(s.queueProfiles, FreshProfile(name), p);
    FindAppended(s.queueProfiles, p);
  }

  /** Distinct-queue mappings on a profile without entries append exactly their layout. */
  lemma MapAllOnEmpty(s: Store, name: string, pid: Id, ms: seq<PriorityMapping>)
    requires QueueProfileRefsValid(s)
    requires FindProfile(s.queueProfiles, name) == Some(pid)
    requires s.queueProfiles[pid].entries == []
    requires DistinctQueues(ms)
    ensures var s' := MapAll(s, name, ms);
      && s'.queueProfiles == s.queueProfiles[pid := s.queueProfiles[pid].(entries := AppendedPairs(ms, |s.queueMapEntries|))]
      && s'.queueMapEntries == s.queueMapEntries + AppendedEntries(ms)
  {
    MapAllAppends(s, name, ms);
    var pairs := AppendedPairs(ms, |s.queueMapEntries|);
    assert [] + pairs == pairs;
  }
}
