/**
 * The bootstrap of the two profile families: build the "default" profile, point the
 * System row at it, build the immutable "factory-default" profile and flag it and every
 * row it links as a hardware default.
 */
module Bootstrap {
  import opened Wrappers
  import opened Association
  import opened Schema
  import opened QosConstants
  import opened Profiles
  import QueueProfile
  import ScheduleProfile
  import Sequences

  /**
   * Passes the rows of t that refs lists through mark, in the order refs lists them.
   * Because mark is idempotent, a row listed twice ends up marked once.
   */
  function MarkRows<E(!new)>(t: seq<E>, refs: seq<Id>, mark: E -> E): (r: seq<E>)
    requires forall i :: 0 <= i < |refs| ==> refs[i] < |t|
    requires forall e :: mark(mark(e)) == mark(e)
    ensures |r| == |t|
    ensures forall k :: 0 <= k < |t| ==> r[k] == if k in refs then mark(t[k]) else t[k]
    decreases |refs|
  {
    if |refs| == 0 then t
    else
      var t' := t[refs[0] := mark(t[refs[0]])];
      assert forall k :: k in refs <==> k == refs[0] || k in refs[1..];
      MarkRows(t', refs[1..], mark)
  }

  /** Setting hw_default to true on a queue-profile entry row. */
  function MarkEntry(e: QueueMapEntry): QueueMapEntry {
    e.(hwDefault := Some(true))
  }

  /** Setting hw_default to true on a queue row. */
  function MarkQueue(q: Queue): Queue {
    q.(hwDefault := Some(true))
  }

  /**
   * The profile named `name` links exactly queues 0..7, queue q to row b + 7 - q, and
   * that row holds the default setting of q flagged as a hardware default.
   */
  ghost predicate HoldsFlaggedSchedule(s: Store, name: string, b: nat) {
    && (forall q :: 0 <= q < 8 ==> ScheduleProfile.QueueOf(s, name, q) == Some(b + 7 - q))
    && (forall q :: (q < 0 || 7 < q) ==> ScheduleProfile.QueueOf(s, name, q).None?)
    && b + 8 <= |s.queues|
    && (forall q :: 0 <= q < 8 ==> s.queues[b + 7 - q] == MarkQueue(ScheduleProfile.DefaultQueueRow(q)))
  }

  /** The row ids an association links. */
  lemma ConsecutiveValues(a: Assoc<int, Id>, base: nat)
    requires forall i :: 0 <= i < |a| ==> a[i].value == base + i
    ensures forall k :: k in Values(a) <==> base <= k < base + |a|
  {
    var vs := Values(a);
    forall k | base <= k < base + |a|
      ensures k in vs
    {
      assert vs[k - base] == k;
    }
  }

  // ---------------------------------------------------------------- queue profiles

  /**
   * Flags the queue profile at f and every entry row it links as a hardware default.
   * Names and associations stay as they are.
   */
  function MarkQueueProfile(s: Store, f: Id): (r: Store)
    requires QueueProfileRefsValid(s)
    requires f < |s.queueProfiles|
    ensures QueueProfileRefsValid(r)
    ensures r.queueProfiles == s.queueProfiles[f := s.queueProfiles[f].(hwDefault := Some(true))]
    ensures |r.queueMapEntries| == |s.queueMapEntries|
    ensures forall k :: 0 <= k < |s.queueMapEntries| ==>
      r.queueMapEntries[k] ==
        if k in Values(s.queueProfiles[f].entries) then MarkEntry(s.queueMapEntries[k]) else s.queueMapEntries[k]
    ensures r == s.(queueProfiles := r.queueProfiles, queueMapEntries := r.queueMapEntries)
  {
    var p := s.queueProfiles[f];
    var refs := Values(p.entries);
    var t := s.queueProfiles[f := p.(hwDefault := Some(true))];
    assert EntriesIn(t, |s.queueMapEntries|) by {
      forall i, j | 0 <= i < |t| && 0 <= j < |t[i].entries|
        ensures t[i].entries[j].value < |s.queueMapEntries|
      {
        assert t[i].entries == s.queueProfiles[i].entries;
      }
    }
    s.(queueProfiles := t, queueMapEntries := MarkRows(s.queueMapEntries, refs, MarkEntry))
  }

  /**
   * Build "default" and point the System row at it, then build "factory-default" and
   * flag it. The lookup after the build cannot fail; the early return is kept as the
   * model's None branch.
   */
  function InitQueueProfile(s: Store): (r: Store)
    requires QueueProfileRefsValid(s)
    ensures QueueProfileRefsValid(r)
    ensures r == s.(queueProfiles := r.queueProfiles, queueMapEntries := r.queueMapEntries, system := r.system)
    ensures r.system == s.system.(queueProfile := r.system.queueProfile)
  {
    var s1 := QueueProfile.QueueProfileCreateFactoryDefault(s, DefaultName);
    match FindProfile(s1.queueProfiles, DefaultName)
    case None => s1
    case Some(d) => InitFactoryQueueProfile(s1.(system := s1.system.(queueProfile := Some(d))))
  }

  /**
   * Build "factory-default" and flag it and its entry rows. The lookup after the build
   * cannot fail; the early return is kept as the model's None branch.
   */
  function InitFactoryQueueProfile(s: Store): (r: Store)
    requires QueueProfileRefsValid(s)
    ensures QueueProfileRefsValid(r)
    ensures r == s.(queueProfiles := r.queueProfiles, queueMapEntries := r.queueMapEntries)
  {
    var s1 := QueueProfile.QueueProfileCreateFactoryDefault(s, FactoryDefaultName);
    match FindProfile(s1.queueProfiles, FactoryDefaultName)
    case None => s1
    case Some(f) => MarkQueueProfile(s1, f)
  }

  /** Flagging a profile keeps every name lookup. */
  lemma MarkKeepsFind(s: Store, f: Id, name: string)
    requires QueueProfileRefsValid(s)
    requires f < |s.queueProfiles|
    requires FindProfile(s.queueProfiles, name).Some?
    ensures FindProfile(MarkQueueProfile(s, f).queueProfiles, name) == FindProfile(s.queueProfiles, name)
  {
    var p := s.queueProfiles[f];
    FindUpdated(s.queueProfiles, f, p.(hwDefault := Some(true)), name);
  }

  /** Flagging a profile keeps every queue-to-priority mapping. */
  lemma MarkKeepsMapping(s: Store, f: Id, name: string, q: int, lp: int)
    requires QueueProfileRefsValid(s)
    requires f < |s.queueProfiles|
    requires QueueProfile.MapsPriority(s, name, q, lp)
    ensures QueueProfile.MapsPriority(MarkQueueProfile(s, f), name, q, lp)
  {
    MarkKeepsFind(s, f, name);
  }

  /** Which priorities a profile maps depends only on the queue-profile tables. */
  lemma MappingIgnoresSystem(s: Store, system: SystemRow, name: string, q: int, lp: int)
    ensures QueueProfile.MapsPriority(s.(system := system), name, q, lp) == QueueProfile.MapsPriority(s, name, q, lp)
  {
  }

  /** The default stage of InitQueueProfile: "default" is built and found. */
  lemma DefaultQueueStage(s: Store)
    requires QueueProfileRefsValid(s)
    ensures var s1 := QueueProfile.QueueProfileCreateFactoryDefault(s, DefaultName);
      && FindProfile(s1.queueProfiles, DefaultName).Some?
      && var s2 := s1.(system := s1.system.(queueProfile := FindProfile(s1.queueProfiles, DefaultName)));
      && InitQueueProfile(s) == InitFactoryQueueProfile(s2)
      && QueueProfile.Grows(s, s1)
      && QueueProfileRefsValid(s2)
      && (forall q :: 0 <= q < 8 ==> QueueProfile.MapsPriority(s2, DefaultName, q, q))
  {
    QueueProfile.CreateFactoryDefaultMaps(s, DefaultName);
    var s1 := QueueProfile.QueueProfileCreateFactoryDefault(s, DefaultName);
    var s2 := s1.(system := s1.system.(queueProfile := FindProfile(s1.queueProfiles, DefaultName)));
    assert InitQueueProfile(s) == InitFactoryQueueProfile(s2);
    forall q | 0 <= q < 8
      ensures QueueProfile.MapsPriority(s2, DefaultName, q, q)
    {
      assert QueueProfile.MapsPriority(s1, DefaultName, q, q);
      MappingIgnoresSystem(s1, s2.system, DefaultName, q, q);
    }
  }

  /** The factory stage: "factory-default" is built and found, and is then flagged. */
  lemma FactoryQueueStage(s: Store)
    requires QueueProfileRefsValid(s)
    ensures var s1 := QueueProfile.QueueProfileCreateFactoryDefault(s, FactoryDefaultName);
      && FindProfile(s1.queueProfiles, FactoryDefaultName).Some?
      && InitFactoryQueueProfile(s) == MarkQueueProfile(s1, FindProfile(s1.queueProfiles, FactoryDefaultName).value)
      && QueueProfile.Grows(s, s1)
      && (forall q :: 0 <= q < 8 ==> QueueProfile.MapsPriority(s1, FactoryDefaultName, q, q))
  {
    QueueProfile.CreateFactoryDefaultMaps(s, FactoryDefaultName);
  }

  /** The factory stage keeps every lookup the default stage made possible. */
  lemma FactoryQueueStageKeepsFind(s: Store, name: string)
    requires QueueProfileRefsValid(s)
    requires FindProfile(s.queueProfiles, name).Some?
    ensures var s1 := QueueProfile.QueueProfileCreateFactoryDefault(s, FactoryDefaultName);
      FindProfile(s1.queueProfiles, name) == FindProfile(s.queueProfiles, name)
  {
    var s1 := QueueProfile.QueueProfileCreateFactoryDefault(s, FactoryDefaultName);
    FactoryQueueStage(s);
    FindStable(s.queueProfiles, s1.queueProfiles, name);
  }

  /** The factory stage keeps what the default stage built: its lookup and its mapping. */
  lemma FactoryQueueStageKeeps(s: Store, name: string)
    requires QueueProfileRefsValid(s)
    requires FindProfile(s.queueProfiles, name).Some?
    ensures var s1 := QueueProfile.QueueProfileCreateFactoryDefault(s, FactoryDefaultName);
      && FindProfile(s1.queueProfiles, name) == FindProfile(s.queueProfiles, name)
      && forall q, lp :: QueueProfile.MapsPriority(s, name, q, lp) ==> QueueProfile.MapsPriority(s1, name, q, lp)
  {
    var s1 := QueueProfile.QueueProfileCreateFactoryDefault(s, FactoryDefaultName);
    FactoryQueueStage(s);
    FactoryQueueStageKeepsFind(s, name);
    forall q, lp | QueueProfile.MapsPriority(s, name, q, lp)
      ensures QueueProfile.MapsPriority(s1, name, q, lp)
    {
      QueueProfile.GrowsKeepsMapping(s, s1, name, q, lp);
    }
  }

  /**
   * After the queue-profile bootstrap both profiles exist and map every queue 0..7 to
   * the local priority of the same number, the System row points at "default", and
   * nothing but the queue-profile tables and that pointer changed.
   */
  lemma InitQueueProfileInstalls(s: Store)
    requires QueueProfileRefsValid(s)
    ensures var r := InitQueueProfile(s);
      && FindProfile(r.queueProfiles, DefaultName).Some?
      && r.system.queueProfile == FindProfile(r.queueProfiles, DefaultName)
      && FindProfile(r.queueProfiles, FactoryDefaultName).Some?
      && (forall q :: 0 <= q < 8 ==>
            QueueProfile.MapsPriority(r, DefaultName, q, q) && QueueProfile.MapsPriority(r, FactoryDefaultName, q, q))
      && r == s.(queueProfiles := r.queueProfiles, queueMapEntries := r.queueMapEntries, system := r.system)
      && r.system == s.system.(queueProfile := r.system.queueProfile)
  {
    DefaultQueueStage(s);
    var s1 := QueueProfile.QueueProfileCreateFactoryDefault(s, DefaultName);
    var s2 := s1.(system := s1.system.(queueProfile := FindProfile(s1.queueProfiles, DefaultName)));
    FactoryQueueStage(s2);
    FactoryQueueStageKeeps(s2, DefaultName);
    var s3 := QueueProfile.QueueProfileCreateFactoryDefault(s2, FactoryDefaultName);
    var f := FindProfile(s3.queueProfiles, FactoryDefaultName).value;
    var r := MarkQueueProfile(s3, f);
    forall q | 0 <= q < 8
      ensures QueueProfile.MapsPriority(r, DefaultName, q, q) && QueueProfile.MapsPriority(r, FactoryDefaultName, q, q)
    {
      MarkKeepsMapping(s3, f, DefaultName, q, q);
      MarkKeepsMapping(s3, f, FactoryDefaultName, q, q);
    }
    MarkKeepsFind(s3, f, DefaultName);
    MarkKeepsFind(s3, f, FactoryDefaultName);
  }

  /** Flagging a profile keeps which entry rows every found profile links. */
  lemma MarkKeepsLinks(s: Store, f: Id, name: string, e: Id)
    requires QueueProfileRefsValid(s)
    requires f < |s.queueProfiles|
    requires FindProfile(s.queueProfiles, name).Some?
    ensures QueueProfile.LinksEntry(MarkQueueProfile(s, f), name, e) == QueueProfile.LinksEntry(s, name, e)
  {
    MarkKeepsFind(s, f, name);
  }

  /**
   * The queue-profile bootstrap leaves every profile not named "default" or
   * "factory-default" as it was, and every old entry row that neither of them links
   * afterwards. An old entry row that "factory-default" does not link keeps its
   * hw_default.
   */
  lemma InitQueueProfileKeepsOthers(s: Store)
    requires QueueProfileRefsValid(s)
    ensures var r := InitQueueProfile(s);
      && |s.queueProfiles| <= |r.queueProfiles|
      && |s.queueMapEntries| <= |r.queueMapEntries|
      && (forall i :: (0 <= i < |s.queueProfiles| && s.queueProfiles[i].name != DefaultName
                       && s.queueProfiles[i].name != FactoryDefaultName) ==>
            r.queueProfiles[i] == s.queueProfiles[i])
      && (forall e :: (0 <= e < |s.queueMapEntries| && !QueueProfile.LinksEntry(r, DefaultName, e)
                       && !QueueProfile.LinksEntry(r, FactoryDefaultName, e)) ==>
            r.queueMapEntries[e] == s.queueMapEntries[e])
      && (forall e :: (0 <= e < |s.queueMapEntries| && !QueueProfile.LinksEntry(r, FactoryDefaultName, e)) ==>
            r.queueMapEntries[e].hwDefault == s.queueMapEntries[e].hwDefault)
  {
    DefaultQueueStage(s);
    var s1 := QueueProfile.QueueProfileCreateFactoryDefault(s, DefaultName);
    var sys := s1.system.(queueProfile := FindProfile(s1.queueProfiles, DefaultName));
    var s2 := s1.(system := sys);
    QueueProfile.CreateFactoryDefaultTouchesOnly(s, DefaultName);
    FactoryQueueStage(s2);
    FactoryQueueStageKeepsFind(s2, DefaultName);
    QueueProfile.CreateFactoryDefaultTouchesOnly(s2, FactoryDefaultName);
    var s3 := QueueProfile.QueueProfileCreateFactoryDefault(s2, FactoryDefaultName);
    QueueStagesKeepOthers(s, s1, sys, s3, FindProfile(s3.queueProfiles, FactoryDefaultName).value);
  }

  /**
   * The frame of the queue-profile bootstrap, stage by stage: s1 is s after building
   * "default", its System row is then replaced by sys, s3 is the result of building
   * "factory-default" on that, and f is the profile the flagging step finds.
   */
  lemma QueueStagesKeepOthers(s: Store, s1: Store, sys: SystemRow, s3: Store, f: Id)
    requires QueueProfile.TouchesOnly(s, s1, DefaultName) && QueueProfile.Grows(s, s1)
    requires QueueProfile.TouchesOnly(s1.(system := sys), s3, FactoryDefaultName)
    requires QueueProfile.Grows(s1.(system := sys), s3)
    requires QueueProfileRefsValid(s3)
    requires FindProfile(s3.queueProfiles, FactoryDefaultName) == Some(f)
    requires FindProfile(s3.queueProfiles, DefaultName).Some?
    ensures var r := MarkQueueProfile(s3, f);
      && |s.queueProfiles| <= |r.queueProfiles|
      && |s.queueMapEntries| <= |r.queueMapEntries|
      && (forall i :: (0 <= i < |s.queueProfiles| && s.queueProfiles[i].name != DefaultName
                       && s.queueProfiles[i].name != FactoryDefaultName) ==>
            r.queueProfiles[i] == s.queueProfiles[i])
      && (forall e :: (0 <= e < |s.queueMapEntries| && !QueueProfile.LinksEntry(r, DefaultName, e)
                       && !QueueProfile.LinksEntry(r, FactoryDefaultName, e)) ==>
            r.queueMapEntries[e] == s.queueMapEntries[e])
      && (forall e :: (0 <= e < |s.queueMapEntries| && !QueueProfile.LinksEntry(r, FactoryDefaultName, e)) ==>
            r.queueMapEntries[e].hwDefault == s.queueMapEntries[e].hwDefault)
  {
    var s2 := s1.(system := sys);
    var r := MarkQueueProfile(s3, f);
    forall e | 0 <= e < |s.queueMapEntries| && !QueueProfile.LinksEntry(r, FactoryDefaultName, e)
      ensures r.queueMapEntries[e] == s3.queueMapEntries[e]
      ensures r.queueMapEntries[e].hwDefault == s.queueMapEntries[e].hwDefault
    {
      MarkKeepsLinks(s3, f, FactoryDefaultName, e);
    }
    forall e | (0 <= e < |s.queueMapEntries| && !QueueProfile.LinksEntry(r, DefaultName, e)
                && !QueueProfile.LinksEntry(r, FactoryDefaultName, e))
      ensures r.queueMapEntries[e] == s.queueMapEntries[e]
    {
      MarkKeepsLinks(s3, f, DefaultName, e);
      MarkKeepsLinks(s3, f, FactoryDefaultName, e);
      if QueueProfile.LinksEntry(s2, DefaultName, e) {
        QueueProfile.GrowsKeepsLinks(s2, s3, DefaultName, e);
      }
      assert QueueProfile.LinksEntry(s2, DefaultName, e) == QueueProfile.LinksEntry(s1, DefaultName, e);
    }
  }

  /** "factory-default" and every entry row it links carry hw_default = true. */
  lemma InitQueueProfileFlagsFactoryDefault(s: Store)
    requires QueueProfileRefsValid(s)
    ensures var r := InitQueueProfile(s);
      && FindProfile(r.queueProfiles, FactoryDefaultName).Some?
      && var f := FindProfile(r.queueProfiles, FactoryDefaultName).value;
      && r.queueProfiles[f].hwDefault == Some(true)
      && (forall i :: 0 <= i < |r.queueProfiles[f].entries| ==>
            r.queueProfiles[f].entries[i].value < |r.queueMapEntries| &&
            r.queueMapEntries[r.queueProfiles[f].entries[i].value].hwDefault == Some(true))
  {
    DefaultQueueStage(s);
    var s1 := QueueProfile.QueueProfileCreateFactoryDefault(s, DefaultName);
    var s2 := s1.(system := s1.system.(queueProfile := FindProfile(s1.queueProfiles, DefaultName)));
    FactoryQueueStage(s2);
    var s3 := QueueProfile.QueueProfileCreateFactoryDefault(s2, FactoryDefaultName);
    var f := FindProfile(s3.queueProfiles, FactoryDefaultName).value;
    MarkKeepsFind(s3, f, FactoryDefaultName);
    MarkQueueProfileFlags(s3, f);
  }

  /** Flagging the profile at f flags it and every entry row it links. */
  lemma MarkQueueProfileFlags(s: Store, f: Id)
    requires QueueProfileRefsValid(s)
    requires f < |s.queueProfiles|
    ensures var r := MarkQueueProfile(s, f);
      && r.queueProfiles[f].hwDefault == Some(true)
      && forall i :: 0 <= i < |r.queueProfiles[f].entries| ==>
           r.queueProfiles[f].entries[i].value < |r.queueMapEntries| &&
           r.queueMapEntries[r.queueProfiles[f].entries[i].value].hwDefault == Some(true)
  {
    var r := MarkQueueProfile(s, f);
    forall i | 0 <= i < |r.queueProfiles[f].entries|
      ensures r.queueProfiles[f].entries[i].value < |r.queueMapEntries|
      ensures r.queueMapEntries[r.queueProfiles[f].entries[i].value].hwDefault == Some(true)
    {
      assert r.queueProfiles[f].entries[i].value == Values(s.queueProfiles[f].entries)[i];
    }
  }

  /** "default" keeps the hw_default it had, and has none if the bootstrap created it. */
  lemma InitQueueProfileKeepsDefaultFlag(s: Store)
    requires QueueProfileRefsValid(s)
    ensures var r := InitQueueProfile(s);
      && FindProfile(r.queueProfiles, DefaultName).Some?
      && r.queueProfiles[FindProfile(r.queueProfiles, DefaultName).value].hwDefault ==
           match FindProfile(s.queueProfiles, DefaultName)
           case Some(d0) => s.queueProfiles[d0].hwDefault
           case None => None
  {
    DefaultQueueStage(s);
    var s1 := QueueProfile.QueueProfileCreateFactoryDefault(s, DefaultName);
    var d := FindProfile(s1.queueProfiles, DefaultName).value;
    var s2 := s1.(system := s1.system.(queueProfile := Some(d)));
    FactoryQueueStage(s2);
    FactoryQueueStageKeepsFind(s2, DefaultName);
    var s3 := QueueProfile.QueueProfileCreateFactoryDefault(s2, FactoryDefaultName);
    var f := FindProfile(s3.queueProfiles, FactoryDefaultName).value;
    MarkKeepsFind(s3, f, DefaultName);
    assert d != f;
    assert s3.queueProfiles[d].hwDefault == s1.queueProfiles[d].hwDefault;
    match FindProfile(s.queueProfiles, DefaultName)
    case Some(d0) =>
      FindStable(s.queueProfiles, s1.queueProfiles, DefaultName);
    case None =>
      assert s1.queueProfiles[d].name == DefaultName;
  }

  /**
   * On a first boot (neither profile exists) the bootstrap appends exactly the two
   * profiles, "default" first, each linking queue N to a fresh entry row listing local
   * priority N; only the eight rows of "factory-default" are flagged.
   */
  lemma InitQueueProfileFirstBoot(s: Store)
    requires QueueProfileRefsValid(s)
    requires FindProfile(s.queueProfiles, DefaultName).None?
    requires FindProfile(s.queueProfiles, FactoryDefaultName).None?
    ensures var r := InitQueueProfile(s);
      var n := |s.queueProfiles|;
      var b := |s.queueMapEntries|;
      && r.queueProfiles == s.queueProfiles + [
           Profile(DefaultName, QueueProfile.AppendedPairs(QueueProfile.DefaultQueueMapping, b), None),
           Profile(FactoryDefaultName, QueueProfile.AppendedPairs(QueueProfile.DefaultQueueMapping, b + 8), Some(true))]
      && r.system.queueProfile == Some(n)
      && |r.queueMapEntries| == b + 16
      && r.queueMapEntries[..b] == s.queueMapEntries
      && (forall k :: b <= k < b + 8 ==> r.queueMapEntries[k] == QueueMapEntry([b + 7 - k], None))
      && (forall k :: b + 8 <= k < b + 16 ==> r.queueMapEntries[k] == QueueMapEntry([b + 15 - k], Some(true)))
  {
    FirstBootQueueStages(s);
    FirstBootFlagged(s);
  }

  /** The store the two first-boot builds leave, before "factory-default" is flagged. */
  function FirstBootBuilt(s: Store): (t: Store)
    ensures |t.queueProfiles| == |s.queueProfiles| + 2
  {
    var ms := QueueProfile.DefaultQueueMapping;
    var b := |s.queueMapEntries|;
    var es := QueueProfile.AppendedEntries(ms);
    s.(queueProfiles := s.queueProfiles + [
         Profile(DefaultName, QueueProfile.AppendedPairs(ms, b), None),
         Profile(FactoryDefaultName, QueueProfile.AppendedPairs(ms, b + 8), None)],
       queueMapEntries := s.queueMapEntries + es + es,
       system := s.system.(queueProfile := Some(|s.queueProfiles|)))
  }

  /** Flagging "factory-default" in the first-boot build gives the first-boot layout. */
  lemma FirstBootFlagged(s: Store)
    requires QueueProfileRefsValid(FirstBootBuilt(s))
    ensures var r := MarkQueueProfile(FirstBootBuilt(s), |s.queueProfiles| + 1);
      var n := |s.queueProfiles|;
      var b := |s.queueMapEntries|;
      && r.queueProfiles == s.queueProfiles + [
           Profile(DefaultName, QueueProfile.AppendedPairs(QueueProfile.DefaultQueueMapping, b), None),
           Profile(FactoryDefaultName, QueueProfile.AppendedPairs(QueueProfile.DefaultQueueMapping, b + 8), Some(true))]
      && r.system.queueProfile == Some(n)
      && |r.queueMapEntries| == b + 16
      && r.queueMapEntries[..b] == s.queueMapEntries
      && (forall k :: b <= k < b + 8 ==> r.queueMapEntries[k] == QueueMapEntry([b + 7 - k], None))
      && (forall k :: b + 8 <= k < b + 16 ==> r.queueMapEntries[k] == QueueMapEntry([b + 15 - k], Some(true)))
  {
    var ms := QueueProfile.DefaultQueueMapping;
    var b := |s.queueMapEntries|;
    var pd := Profile(DefaultName, QueueProfile.AppendedPairs(ms, b), None);
    var pf := Profile(FactoryDefaultName, QueueProfile.AppendedPairs(ms, b + 8), None);
    var es := QueueProfile.AppendedEntries(ms);
    DefaultEntryRows();
    FlagSecondAppended(s, FirstBootBuilt(s), pd, pf, es);
  }

  /** The entry rows the bootstrap list creates: the i-th lists local priority 7 - i. */
  lemma DefaultEntryRows()
    ensures |QueueProfile.AppendedEntries(QueueProfile.DefaultQueueMapping)| == 8
    ensures forall i :: 0 <= i < 8 ==>
      QueueProfile.AppendedEntries(QueueProfile.DefaultQueueMapping)[i] == QueueMapEntry([7 - i], None)
  {
    QueueProfile.DefaultQueueMappingIsIdentity();
  }

  /**
   * Flagging the second of two appended profiles, when it links exactly its own block of
   * appended rows, flags that block and nothing else.
   */
  lemma FlagSecondAppended(s: Store, t: Store, pd: Profile, pf: Profile, es: seq<QueueMapEntry>)
    requires t.queueProfiles == s.queueProfiles + [pd, pf]
    requires t.queueMapEntries == s.queueMapEntries + es + es
    requires QueueProfileRefsValid(t)
    requires |pf.entries| == |es|
    requires forall i :: 0 <= i < |pf.entries| ==> pf.entries[i].value == |s.queueMapEntries| + |es| + i
    ensures var r := MarkQueueProfile(t, |s.queueProfiles| + 1);
      var b := |s.queueMapEntries|;
      && r == t.(queueProfiles := r.queueProfiles, queueMapEntries := r.queueMapEntries)
      && r.queueProfiles == s.queueProfiles + [pd, pf.(hwDefault := Some(true))]
      && |r.queueMapEntries| == b + 2 * |es|
      && r.queueMapEntries[..b] == s.queueMapEntries
      && (forall k :: b <= k < b + |es| ==> r.queueMapEntries[k] == es[k - b])
      && (forall k :: b + |es| <= k < b + 2 * |es| ==> r.queueMapEntries[k] == MarkEntry(es[k - b - |es|]))
  {
    var b := |s.queueMapEntries|;
    var f := |s.queueProfiles| + 1;
    var r := MarkQueueProfile(t, f);
    assert t.queueProfiles[f] == pf;
    ConsecutiveValues(pf.entries, b + |es|);
    assert r.queueMapEntries[..b] == s.queueMapEntries by {
      forall k | 0 <= k < b
        ensures r.queueMapEntries[k] == s.queueMapEntries[k]
      {
        assert t.queueMapEntries[k] == s.queueMapEntries[k];
      }
    }
    forall k | b <= k < b + 2 * |es|
      ensures r.queueMapEntries[k] == if k < b + |es| then es[k - b] else MarkEntry(es[k - b - |es|])
    {
      if k < b + |es| {
        assert t.queueMapEntries[k] == es[k - b];
      } else {
        assert t.queueMapEntries[k] == es[k - b - |es|];
      }
    }
  }

  /** On a first boot both builds append; the result is the flagging of what they built. */
  lemma FirstBootQueueStages(s: Store)
    requires QueueProfileRefsValid(s)
    requires FindProfile(s.queueProfiles, DefaultName).None?
    requires FindProfile(s.queueProfiles, FactoryDefaultName).None?
    ensures var ms := QueueProfile.DefaultQueueMapping;
      var n := |s.queueProfiles|;
      var b := |s.queueMapEntries|;
      var es := QueueProfile.AppendedEntries(ms);
      var t := s.(queueProfiles := s.queueProfiles + [
                    Profile(DefaultName, QueueProfile.AppendedPairs(ms, b), None),
                    Profile(FactoryDefaultName, QueueProfile.AppendedPairs(ms, b + 8), None)],
                  queueMapEntries := s.queueMapEntries + es + es,
                  system := s.system.(queueProfile := Some(n)));
      && t == FirstBootBuilt(s)
      && QueueProfileRefsValid(t)
      && n + 1 < |t.queueProfiles|
      && InitQueueProfile(s) == MarkQueueProfile(t, n + 1)
  {
    var ms := QueueProfile.DefaultQueueMapping;
    var n := |s.queueProfiles|;
    var b := |s.queueMapEntries|;
    var es := QueueProfile.AppendedEntries(ms);
    var pd := Profile(DefaultName, QueueProfile.AppendedPairs(ms, b), None);
    var pf := Profile(FactoryDefaultName, QueueProfile.AppendedPairs(ms, b + 8), None);
    var sys := s.system.(queueProfile := Some(n));
    FirstBootDefaultStage(s);
    var s2 := s.(queueProfiles := s.queueProfiles + [pd], queueMapEntries := s.queueMapEntries + es, system := sys);
    FindAppendedOther(s.queueProfiles, pd, FactoryDefaultName);
    FirstBootFactoryStage(s2);
    AppendTwice(s, pd, pf, es, sys);
  }

  /** Appending a profile of another name leaves a name missing. */
  lemma FindAppendedOther(t: seq<Profile>, p: Profile, name: string)
    requires FindProfile(t, name).None?
    requires p.name != name
    ensures FindProfile(t + [p], name).None?
  {
    assert forall j :: 0 <= j < |t| + 1 ==> (t + [p])[j].name != name by {
      assert (t + [p])[|t|] == p;
    }
  }

  /** Two builds that each append a profile and its entry rows, as one step. */
  lemma AppendTwice(s: Store, p1: Profile, p2: Profile, es: seq<QueueMapEntry>, system: SystemRow)
    ensures var s2 := s.(queueProfiles := s.queueProfiles + [p1], queueMapEntries := s.queueMapEntries + es, system := system);
      s2.(queueProfiles := s2.queueProfiles + [p2], queueMapEntries := s2.queueMapEntries + es) ==
        s.(queueProfiles := s.queueProfiles + [p1, p2], queueMapEntries := s.queueMapEntries + es + es, system := system)
  {
    Sequences.ConcatAssoc(s.queueProfiles, [p1], [p2]);
  }

  /** On a first boot the default stage appends "default" and points the System row at it. */
  lemma FirstBootDefaultStage(s: Store)
    requires QueueProfileRefsValid(s)
    requires FindProfile(s.queueProfiles, DefaultName).None?
    ensures var ms := QueueProfile.DefaultQueueMapping;
      var n := |s.queueProfiles|;
      var s2 := s.(queueProfiles := s.queueProfiles + [Profile(DefaultName, QueueProfile.AppendedPairs(ms, |s.queueMapEntries|), None)],
                   queueMapEntries := s.queueMapEntries + QueueProfile.AppendedEntries(ms),
                   system := s.system.(queueProfile := Some(n)));
      && QueueProfileRefsValid(s2)
      && InitQueueProfile(s) == InitFactoryQueueProfile(s2)
  {
    DefaultQueueStage(s);
    QueueProfile.CreateFactoryDefaultFresh(s, DefaultName);
  }

  /** With no "factory-default" yet, the factory stage appends it and flags what it appended. */
  lemma FirstBootFactoryStage(s: Store)
    requires QueueProfileRefsValid(s)
    requires FindProfile(s.queueProfiles, FactoryDefaultName).None?
    ensures var ms := QueueProfile.DefaultQueueMapping;
      var t := s.(queueProfiles := s.queueProfiles + [Profile(FactoryDefaultName, QueueProfile.AppendedPairs(ms, |s.queueMapEntries|), None)],
                  queueMapEntries := s.queueMapEntries + QueueProfile.AppendedEntries(ms));
      && QueueProfileRefsValid(t)
      && InitFactoryQueueProfile(s) == MarkQueueProfile(t, |s.queueProfiles|)
  {
    FactoryQueueStage(s);
    QueueProfile.CreateFactoryDefaultFresh(s, FactoryDefaultName);
  }

  // ------------------------------------------------------------- schedule profiles

  /**
   * Flags the schedule profile at f and every queue row it links as a hardware default.
   * Names and associations stay as they are.
   */
  function MarkScheduleProfile(s: Store, f: Id): (r: Store)
    requires ScheduleProfileRefsValid(s)
    requires f < |s.scheduleProfiles|
    ensures ScheduleProfileRefsValid(r)
    ensures r.scheduleProfiles == s.scheduleProfiles[f := s.scheduleProfiles[f].(hwDefault := Some(true))]
    ensures |r.queues| == |s.queues|
    ensures forall k :: 0 <= k < |s.queues| ==>
      r.queues[k] == if k in Values(s.scheduleProfiles[f].entries) then MarkQueue(s.queues[k]) else s.queues[k]
    ensures r == s.(scheduleProfiles := r.scheduleProfiles, queues := r.queues)
  {
    var p := s.scheduleProfiles[f];
    var refs := Values(p.entries);
    var t := s.scheduleProfiles[f := p.(hwDefault := Some(true))];
    assert EntriesIn(t, |s.queues|) by {
      forall i, j | 0 <= i < |t| && 0 <= j < |t[i].entries|
        ensures t[i].entries[j].value < |s.queues|
      {
        assert t[i].entries == s.scheduleProfiles[i].entries;
      }
    }
    s.(scheduleProfiles := t, queues := MarkRows(s.queues, refs, MarkQueue))
  }

  /**
   * Build "default" and point the System row at it, then build "factory-default" and
   * flag it. The lookup after the build cannot fail; the early return is kept as the
   * model's None branch.
   */
  function InitScheduleProfile(s: Store): (r: Store)
    requires ScheduleProfileRefsValid(s)
    ensures ScheduleProfileRefsValid(r)
    ensures r == s.(scheduleProfiles := r.scheduleProfiles, queues := r.queues, system := r.system)
    ensures r.system == s.system.(scheduleProfile := r.system.scheduleProfile)
  {
    var s1 := ScheduleProfile.ScheduleProfileCreateFactoryDefault(s, DefaultName);
    match FindProfile(s1.scheduleProfiles, DefaultName)
    case None => s1
    case Some(d) => InitFactoryScheduleProfile(s1.(system := s1.system.(scheduleProfile := Some(d))))
  }

  /**
   * Build "factory-default" and flag it and its queue rows. The lookup after the build
   * cannot fail; the early return is kept as the model's None branch.
   */
  function InitFactoryScheduleProfile(s: Store): (r: Store)
    requires ScheduleProfileRefsValid(s)
    ensures ScheduleProfileRefsValid(r)
    ensures r == s.(scheduleProfiles := r.scheduleProfiles, queues := r.queues)
  {
    var s1 := ScheduleProfile.ScheduleProfileCreateFactoryDefault(s, FactoryDefaultName);
    match FindProfile(s1.scheduleProfiles, FactoryDefaultName)
    case None => s1
    case Some(f) => MarkScheduleProfile(s1, f)
  }

  /**
   * What one schedule build does to the tables: the profile exists and links exactly the
   * default pairs over eight rows appended after the old ones; nothing else changes.
   */
  lemma ScheduleBuildLayout(s: Store, name: string)
    requires ScheduleProfileRefsValid(s)
    ensures var s' := ScheduleProfile.ScheduleProfileCreateFactoryDefault(s, name);
      && FindProfile(s'.scheduleProfiles, name).Some?
      && var pid := FindProfile(s'.scheduleProfiles, name).value;
      && s' == s.(scheduleProfiles := s'.scheduleProfiles, queues := s'.queues)
      && s'.queues == s.queues + ScheduleProfile.SettingRows(ScheduleProfile.DefaultSchedule)
      && s'.scheduleProfiles[pid].entries == ScheduleProfile.SettingPairs(ScheduleProfile.DefaultSchedule, |s.queues|)
  {
    ScheduleProfile.CreateFactoryDefaultLayout(s, name);
  }

  /** After one schedule build the profile holds the default schedule on the appended rows. */
  lemma ScheduleBuildHolds(s: Store, name: string)
    requires ScheduleProfileRefsValid(s)
    ensures ScheduleProfile.HoldsDefaultSchedule(ScheduleProfile.ScheduleProfileCreateFactoryDefault(s, name), name, |s.queues|)
  {
    var s' := ScheduleProfile.ScheduleProfileCreateFactoryDefault(s, name);
    ScheduleBuildLayout(s, name);
    ScheduleProfile.DefaultLayoutSchedules(s', name, FindProfile(s'.scheduleProfiles, name).value, s.queues);
  }

  /**
   * One schedule build keeps every other profile as it was, keeps all names, and keeps
   * the built profile's hw_default (none if it is new).
   */
  lemma ScheduleBuildKeeps(s: Store, name: string)
    requires ScheduleProfileRefsValid(s)
    ensures var s' := ScheduleProfile.ScheduleProfileCreateFactoryDefault(s, name);
      && FindProfile(s'.scheduleProfiles, name).Some?
      && var pid := FindProfile(s'.scheduleProfiles, name).value;
      && KeepsNames(s.scheduleProfiles, s'.scheduleProfiles)
      && (forall i :: 0 <= i < |s.scheduleProfiles| && i != pid ==> s'.scheduleProfiles[i] == s.scheduleProfiles[i])
      && s'.scheduleProfiles[pid].hwDefault ==
           match FindProfile(s.scheduleProfiles, name)
           case Some(p0) => s.scheduleProfiles[p0].hwDefault
           case None => None
  {
    var c := ScheduleProfile.ScheduleProfileCommand(s, name).store;
    ScheduleProfile.CreateFactoryDefaultLayout(s, name);
    match FindProfile(s.scheduleProfiles, name)
    case Some(p0) =>
    case None =>
      assert c.scheduleProfiles[|s.scheduleProfiles|] == FreshProfile(name);
      FindAppended(s.scheduleProfiles, FreshProfile(name));
  }

  /** A schedule build always leaves the profile findable. */
  lemma ScheduleBuildFinds(s: Store, name: string)
    requires ScheduleProfileRefsValid(s)
    ensures FindProfile(ScheduleProfile.ScheduleProfileCreateFactoryDefault(s, name).scheduleProfiles, name).Some?
  {
    ScheduleProfile.CreateFactoryDefaultLayout(s, name);
  }

  /** Whether a profile holds the default schedule does not depend on the System row. */
  lemma HoldsIgnoresSystem(s: Store, system: SystemRow, name: string, b: nat)
    requires ScheduleProfile.HoldsDefaultSchedule(s, name, b)
    ensures ScheduleProfile.HoldsDefaultSchedule(s.(system := system), name, b)
  {
    var s' := s.(system := system);
    assert forall q :: ScheduleProfile.QueueOf(s', name, q) == ScheduleProfile.QueueOf(s, name, q);
  }

  /** The default stage of InitScheduleProfile: "default" is built and found. */
  lemma DefaultScheduleStage(s: Store)
    requires ScheduleProfileRefsValid(s)
    ensures var s1 := ScheduleProfile.ScheduleProfileCreateFactoryDefault(s, DefaultName);
      && FindProfile(s1.scheduleProfiles, DefaultName).Some?
      && var s2 := s1.(system := s1.system.(scheduleProfile := FindProfile(s1.scheduleProfiles, DefaultName)));
      && ScheduleProfileRefsValid(s2)
      && InitScheduleProfile(s) == InitFactoryScheduleProfile(s2)
  {
    ScheduleBuildFinds(s, DefaultName);
  }

  /** The factory stage: "factory-default" is built and found, and is then flagged. */
  lemma FactoryScheduleStage(s: Store)
    requires ScheduleProfileRefsValid(s)
    ensures var s1 := ScheduleProfile.ScheduleProfileCreateFactoryDefault(s, FactoryDefaultName);
      && FindProfile(s1.scheduleProfiles, FactoryDefaultName).Some?
      && InitFactoryScheduleProfile(s) == MarkScheduleProfile(s1, FindProfile(s1.scheduleProfiles, FactoryDefaultName).value)
  {
    ScheduleBuildFinds(s, FactoryDefaultName);
  }

  /**
   * A profile that holds the default schedule keeps holding it in a store with the same
   * lookup, the same association and the old queue rows still in place.
   */
  lemma HoldsCarried(s: Store, s': Store, name: string, b: nat, pid: Id)
    requires ScheduleProfile.HoldsDefaultSchedule(s, name, b)
    requires FindProfile(s.scheduleProfiles, name) == Some(pid)
    requires FindProfile(s'.scheduleProfiles, name) == Some(pid)
    requires s'.scheduleProfiles[pid].entries == s.scheduleProfiles[pid].entries
    requires |s.queues| <= |s'.queues|
    requires forall k :: b <= k < b + 8 ==> k < |s.queues| ==> s'.queues[k] == s.queues[k]
    ensures ScheduleProfile.HoldsDefaultSchedule(s', name, b)
  {
    assert forall q :: ScheduleProfile.QueueOf(s', name, q) == ScheduleProfile.QueueOf(s, name, q);
    forall q | 0 <= q < 8
      ensures s'.queues[b + 7 - q] == ScheduleProfile.DefaultQueueRow(q)
    {
      HoldsRow(s, name, b, q);
    }
  }

  /** The queue row a profile holding the default schedule links for queue q. */
  lemma HoldsRow(s: Store, name: string, b: nat, q: int)
    requires ScheduleProfile.HoldsDefaultSchedule(s, name, b)
    requires 0 <= q < 8
    ensures ScheduleProfile.QueueOf(s, name, q) == Some(b + 7 - q)
    ensures b + 7 - q < |s.queues| && s.queues[b + 7 - q] == ScheduleProfile.DefaultQueueRow(q)
  {
  }

  /** Flagging another profile whose rows lie outside b..b+7 keeps a default schedule there. */
  lemma MarkScheduleKeeps(s: Store, f: Id, name: string, b: nat, pid: Id)
    requires ScheduleProfileRefsValid(s)
    requires f < |s.scheduleProfiles|
    requires FindProfile(s.scheduleProfiles, name) == Some(pid) && pid != f
    requires ScheduleProfile.HoldsDefaultSchedule(s, name, b)
    requires forall k :: k in Values(s.scheduleProfiles[f].entries) ==> k < b || b + 8 <= k
    ensures var r := MarkScheduleProfile(s, f);
      && FindProfile(r.scheduleProfiles, name) == Some(pid)
      && r.scheduleProfiles[pid] == s.scheduleProfiles[pid]
      && ScheduleProfile.HoldsDefaultSchedule(r, name, b)
  {
    var p := s.scheduleProfiles[f];
    var r := MarkScheduleProfile(s, f);
    FindUpdated(s.scheduleProfiles, f, p.(hwDefault := Some(true)), name);
    HoldsCarried(s, r, name, b, pid);
  }

  /**
   * Flagging a profile that holds the default schedule flags the profile and exactly its
   * eight rows, which keep their scheduling columns.
   */
  lemma MarkScheduleFlags(s: Store, f: Id, name: string, b: nat)
    requires ScheduleProfileRefsValid(s)
    requires FindProfile(s.scheduleProfiles, name) == Some(f)
    requires ScheduleProfile.HoldsDefaultSchedule(s, name, b)
    ensures var r := MarkScheduleProfile(s, f);
      && FindProfile(r.scheduleProfiles, name) == Some(f)
      && r.scheduleProfiles[f].hwDefault == Some(true)
      && HoldsFlaggedSchedule(r, name, b)
  {
    var p := s.scheduleProfiles[f];
    var r := MarkScheduleProfile(s, f);
    FindUpdated(s.scheduleProfiles, f, p.(hwDefault := Some(true)), name);
    assert forall q :: ScheduleProfile.QueueOf(r, name, q) == ScheduleProfile.QueueOf(s, name, q);
    forall q | 0 <= q < 8
      ensures r.queues[b + 7 - q] == MarkQueue(ScheduleProfile.DefaultQueueRow(q))
    {
      HoldsRow(s, name, b, q);
      PairValue(p.entries, q, b + 7 - q);
    }
  }

  /**
   * The factory stage keeps a profile of another name that holds the default schedule:
   * same lookup, same row, same schedule.
   */
  lemma FactoryScheduleKeeps(s: Store, name: string, b: nat, pid: Id)
    requires ScheduleProfileRefsValid(s)
    requires name != FactoryDefaultName
    requires FindProfile(s.scheduleProfiles, name) == Some(pid)
    requires ScheduleProfile.HoldsDefaultSchedule(s, name, b)
    ensures var r := InitFactoryScheduleProfile(s);
      && FindProfile(r.scheduleProfiles, name) == Some(pid)
      && r.scheduleProfiles[pid] == s.scheduleProfiles[pid]
      && ScheduleProfile.HoldsDefaultSchedule(r, name, b)
  {
    FactoryScheduleStage(s);
    FactoryBuildKeeps(s, name, b, pid);
    var s1 := ScheduleProfile.ScheduleProfileCreateFactoryDefault(s, FactoryDefaultName);
    MarkScheduleKeeps(s1, FindProfile(s1.scheduleProfiles, FactoryDefaultName).value, name, b, pid);
  }

  /** The build of "factory-default" keeps another profile holding the default schedule. */
  lemma FactoryBuildKeeps(s: Store, name: string, b: nat, pid: Id)
    requires ScheduleProfileRefsValid(s)
    requires name != FactoryDefaultName
    requires FindProfile(s.scheduleProfiles, name) == Some(pid)
    requires ScheduleProfile.HoldsDefaultSchedule(s, name, b)
    ensures var s1 := ScheduleProfile.ScheduleProfileCreateFactoryDefault(s, FactoryDefaultName);
      && FindProfile(s1.scheduleProfiles, FactoryDefaultName).Some?
      && var f := FindProfile(s1.scheduleProfiles, FactoryDefaultName).value;
      && FindProfile(s1.scheduleProfiles, name) == Some(pid)
      && pid != f
      && s1.scheduleProfiles[pid] == s.scheduleProfiles[pid]
      && ScheduleProfile.HoldsDefaultSchedule(s1, name, b)
      && forall k :: k in Values(s1.scheduleProfiles[f].entries) ==> k < b || b + 8 <= k
  {
    ScheduleBuildKeeps(s, FactoryDefaultName);
    ScheduleBuildAppends(s, FactoryDefaultName);
    var s1 := ScheduleProfile.ScheduleProfileCreateFactoryDefault(s, FactoryDefaultName);
    FindStable(s.scheduleProfiles, s1.scheduleProfiles, name);
    HoldsCarried(s, s1, name, b, pid);
  }

  /** A schedule build links only rows it appends, and keeps the old rows in place. */
  lemma ScheduleBuildAppends(s: Store, name: string)
    requires ScheduleProfileRefsValid(s)
    ensures var s1 := ScheduleProfile.ScheduleProfileCreateFactoryDefault(s, name);
      && FindProfile(s1.scheduleProfiles, name).Some?
      && s1 == s.(scheduleProfiles := s1.scheduleProfiles, queues := s1.queues)
      && |s1.queues| == |s.queues| + 8
      && (forall k :: 0 <= k < |s.queues| ==> s1.queues[k] == s.queues[k])
      && forall k :: k in Values(s1.scheduleProfiles[FindProfile(s1.scheduleProfiles, name).value].entries) ==>
           |s.queues| <= k < |s.queues| + 8
  {
    ScheduleBuildLayout(s, name);
    var s1 := ScheduleProfile.ScheduleProfileCreateFactoryDefault(s, name);
    ConsecutiveValues(s1.scheduleProfiles[FindProfile(s1.scheduleProfiles, name).value].entries, |s.queues|);
  }

  /**
   * The factory stage leaves "factory-default" flagged and holding the default schedule
   * on eight flagged rows appended after the old ones.
   */
  lemma FactoryScheduleFlags(s: Store)
    requires ScheduleProfileRefsValid(s)
    ensures var r := InitFactoryScheduleProfile(s);
      && FindProfile(r.scheduleProfiles, FactoryDefaultName).Some?
      && r.scheduleProfiles[FindProfile(r.scheduleProfiles, FactoryDefaultName).value].hwDefault == Some(true)
      && HoldsFlaggedSchedule(r, FactoryDefaultName, |s.queues|)
  {
    FactoryScheduleStage(s);
    ScheduleBuildHolds(s, FactoryDefaultName);
    var s1 := ScheduleProfile.ScheduleProfileCreateFactoryDefault(s, FactoryDefaultName);
    MarkScheduleFlags(s1, FindProfile(s1.scheduleProfiles, FactoryDefaultName).value, FactoryDefaultName, |s.queues|);
  }

  /** The factory stage appends eight queue rows, changes no old one and nothing else. */
  lemma FactoryScheduleAppends(s: Store)
    requires ScheduleProfileRefsValid(s)
    ensures var r := InitFactoryScheduleProfile(s);
      && |r.queues| == |s.queues| + 8
      && r.queues[..|s.queues|] == s.queues
      && r == s.(scheduleProfiles := r.scheduleProfiles, queues := r.queues)
  {
    var b := |s.queues|;
    FactoryScheduleStage(s);
    ScheduleBuildAppends(s, FactoryDefaultName);
    var s1 := ScheduleProfile.ScheduleProfileCreateFactoryDefault(s, FactoryDefaultName);
    var r := MarkScheduleProfile(s1, FindProfile(s1.scheduleProfiles, FactoryDefaultName).value);
    assert r.queues[..b] == s.queues by {
      forall k | 0 <= k < b
        ensures r.queues[k] == s.queues[k]
      {
        assert s1.queues[k] == s.queues[k];
      }
    }
  }

  /** Two stages that each append eight rows and keep the old ones, as one. */
  lemma AppendsCompose(a: seq<Queue>, b: seq<Queue>, c: seq<Queue>)
    requires |b| == |a| + 8 && b[..|a|] == a
    requires |c| == |b| + 8 && c[..|b|] == b
    ensures |c| == |a| + 16 && c[..|a|] == a
  {
    assert c[..|a|] == c[..|b|][..|a|];
  }

  /**
   * The default stage: "default" holds the default schedule on eight rows appended
   * after the old ones and keeps its hw_default.
   */
  lemma DefaultScheduleFacts(s: Store)
    requires ScheduleProfileRefsValid(s)
    ensures var s1 := ScheduleProfile.ScheduleProfileCreateFactoryDefault(s, DefaultName);
      && FindProfile(s1.scheduleProfiles, DefaultName).Some?
      && var d := FindProfile(s1.scheduleProfiles, DefaultName).value;
      var s2 := s1.(system := s1.system.(scheduleProfile := Some(d)));
      && ScheduleProfile.HoldsDefaultSchedule(s2, DefaultName, |s.queues|)
      && s2.scheduleProfiles[d].hwDefault ==
           match FindProfile(s.scheduleProfiles, DefaultName)
           case Some(d0) => s.scheduleProfiles[d0].hwDefault
           case None => None
  {
    ScheduleBuildHolds(s, DefaultName);
    ScheduleBuildKeeps(s, DefaultName);
    var s1 := ScheduleProfile.ScheduleProfileCreateFactoryDefault(s, DefaultName);
    var d := FindProfile(s1.scheduleProfiles, DefaultName).value;
    HoldsIgnoresSystem(s1, s1.system.(scheduleProfile := Some(d)), DefaultName, |s.queues|);
  }

  /** The default stage appends eight rows and changes only the profiles and the pointer. */
  lemma DefaultScheduleFrame(s: Store)
    requires ScheduleProfileRefsValid(s)
    ensures var s1 := ScheduleProfile.ScheduleProfileCreateFactoryDefault(s, DefaultName);
      var s2 := s1.(system := s1.system.(scheduleProfile := FindProfile(s1.scheduleProfiles, DefaultName)));
      && |s2.queues| == |s.queues| + 8
      && s2.queues[..|s.queues|] == s.queues
      && s2 == s.(scheduleProfiles := s2.scheduleProfiles, queues := s2.queues, system := s2.system)
      && s2.system == s.system.(scheduleProfile := s2.system.scheduleProfile)
  {
    ScheduleBuildLayout(s, DefaultName);
  }

  /**
   * After the schedule-profile bootstrap "default" holds the default schedule on the
   * first eight appended queue rows, and the System row points at it.
   */
  lemma InitScheduleProfileInstallsDefault(s: Store)
    requires ScheduleProfileRefsValid(s)
    ensures var r := InitScheduleProfile(s);
      && FindProfile(r.scheduleProfiles, DefaultName).Some?
      && r.system.scheduleProfile == FindProfile(r.scheduleProfiles, DefaultName)
      && ScheduleProfile.HoldsDefaultSchedule(r, DefaultName, |s.queues|)
  {
    DefaultScheduleStage(s);
    DefaultScheduleFacts(s);
    var s1 := ScheduleProfile.ScheduleProfileCreateFactoryDefault(s, DefaultName);
    var d := FindProfile(s1.scheduleProfiles, DefaultName).value;
    var s2 := s1.(system := s1.system.(scheduleProfile := Some(d)));
    FactoryScheduleKeeps(s2, DefaultName, |s.queues|, d);
    FactoryScheduleKeepsSystem(s2);
  }

  /** The factory stage does not touch the System row. */
  lemma FactoryScheduleKeepsSystem(s: Store)
    requires ScheduleProfileRefsValid(s)
    ensures InitFactoryScheduleProfile(s).system == s.system
  {
    FactoryScheduleAppends(s);
  }

  /** One schedule build changes no profile of another name. */
  lemma ScheduleBuildKeepsOthers(s: Store, name: string)
    requires ScheduleProfileRefsValid(s)
    ensures var s' := ScheduleProfile.ScheduleProfileCreateFactoryDefault(s, name);
      && |s.scheduleProfiles| <= |s'.scheduleProfiles|
      && forall i :: (0 <= i < |s.scheduleProfiles| && s.scheduleProfiles[i].name != name) ==>
           s'.scheduleProfiles[i] == s.scheduleProfiles[i]
  {
    ScheduleBuildKeeps(s, name);
  }

  /**
   * The schedule-profile bootstrap changes no profile but "default" and
   * "factory-default".
   */
  lemma InitScheduleProfileKeepsOthers(s: Store)
    requires ScheduleProfileRefsValid(s)
    ensures var r := InitScheduleProfile(s);
      && |s.scheduleProfiles| <= |r.scheduleProfiles|
      && forall i :: (0 <= i < |s.scheduleProfiles| && s.scheduleProfiles[i].name != DefaultName
                      && s.scheduleProfiles[i].name != FactoryDefaultName) ==>
           r.scheduleProfiles[i] == s.scheduleProfiles[i]
  {
    DefaultScheduleStage(s);
    ScheduleBuildKeepsOthers(s, DefaultName);
    var s1 := ScheduleProfile.ScheduleProfileCreateFactoryDefault(s, DefaultName);
    var sys := s1.system.(scheduleProfile := FindProfile(s1.scheduleProfiles, DefaultName));
    var s2 := s1.(system := sys);
    FactoryScheduleStage(s2);
    ScheduleBuildKeepsOthers(s2, FactoryDefaultName);
    var s3 := ScheduleProfile.ScheduleProfileCreateFactoryDefault(s2, FactoryDefaultName);
    ScheduleStagesKeepOthers(s, s1, sys, s3, FindProfile(s3.scheduleProfiles, FactoryDefaultName).value);
  }

  /**
   * The profile frame of the schedule-profile bootstrap, stage by stage, with the stores
   * named as in QueueStagesKeepOthers.
   */
  lemma ScheduleStagesKeepOthers(s: Store, s1: Store, sys: SystemRow, s3: Store, f: Id)
    requires |s.scheduleProfiles| <= |s1.scheduleProfiles| <= |s3.scheduleProfiles|
    requires forall i :: (0 <= i < |s.scheduleProfiles| && s.scheduleProfiles[i].name != DefaultName) ==>
      s1.scheduleProfiles[i] == s.scheduleProfiles[i]
    requires forall i :: (0 <= i < |s1.scheduleProfiles| && s1.scheduleProfiles[i].name != FactoryDefaultName) ==>
      s3.scheduleProfiles[i] == s1.scheduleProfiles[i]
    requires ScheduleProfileRefsValid(s3)
    requires FindProfile(s3.scheduleProfiles, FactoryDefaultName) == Some(f)
    ensures var r := MarkScheduleProfile(s3, f);
      && |s.scheduleProfiles| <= |r.scheduleProfiles|
      && forall i :: (0 <= i < |s.scheduleProfiles| && s.scheduleProfiles[i].name != DefaultName
                      && s.scheduleProfiles[i].name != FactoryDefaultName) ==>
           r.scheduleProfiles[i] == s.scheduleProfiles[i]
  {
  }

  /**
   * The schedule-profile bootstrap appends sixteen queue rows and changes no old one;
   * apart from the schedule-profile tables only the System row's pointer changes, and
   * within them no profile but "default" and "factory-default".
   */
  lemma InitScheduleProfileFrame(s: Store)
    requires ScheduleProfileRefsValid(s)
    ensures var r := InitScheduleProfile(s);
      && |r.queues| == |s.queues| + 16
      && r.queues[..|s.queues|] == s.queues
      && r == s.(scheduleProfiles := r.scheduleProfiles, queues := r.queues, system := r.system)
      && r.system == s.system.(scheduleProfile := r.system.scheduleProfile)
      && |s.scheduleProfiles| <= |r.scheduleProfiles|
      && (forall i :: (0 <= i < |s.scheduleProfiles| && s.scheduleProfiles[i].name != DefaultName
                       && s.scheduleProfiles[i].name != FactoryDefaultName) ==>
            r.scheduleProfiles[i] == s.scheduleProfiles[i])
  {
    InitScheduleProfileKeepsOthers(s);
    DefaultScheduleStage(s);
    DefaultScheduleFrame(s);
    var s1 := ScheduleProfile.ScheduleProfileCreateFactoryDefault(s, DefaultName);
    var s2 := s1.(system := s1.system.(scheduleProfile := FindProfile(s1.scheduleProfiles, DefaultName)));
    FactoryScheduleAppends(s2);
    AppendsCompose(s.queues, s2.queues, InitFactoryScheduleProfile(s2).queues);
  }

  /**
   * After the schedule-profile bootstrap "factory-default" is flagged and holds the
   * default schedule on the second eight appended queue rows, each of them flagged.
   */
  lemma InitScheduleProfileInstallsFactoryDefault(s: Store)
    requires ScheduleProfileRefsValid(s)
    ensures var r := InitScheduleProfile(s);
      && FindProfile(r.scheduleProfiles, FactoryDefaultName).Some?
      && r.scheduleProfiles[FindProfile(r.scheduleProfiles, FactoryDefaultName).value].hwDefault == Some(true)
      && HoldsFlaggedSchedule(r, FactoryDefaultName, |s.queues| + 8)
  {
    DefaultScheduleStage(s);
    DefaultScheduleQueueCount(s);
    var s1 := ScheduleProfile.ScheduleProfileCreateFactoryDefault(s, DefaultName);
    var s2 := s1.(system := s1.system.(scheduleProfile := FindProfile(s1.scheduleProfiles, DefaultName)));
    FactoryScheduleFlags(s2);
  }

  /** The default stage appends eight queue rows. */
  lemma DefaultScheduleQueueCount(s: Store)
    requires ScheduleProfileRefsValid(s)
    ensures var s1 := ScheduleProfile.ScheduleProfileCreateFactoryDefault(s, DefaultName);
      var s2 := s1.(system := s1.system.(scheduleProfile := FindProfile(s1.scheduleProfiles, DefaultName)));
      |s2.queues| == |s.queues| + 8
  {
    ScheduleBuildLayout(s, DefaultName);
  }

  /** "default" keeps the hw_default it had, and has none if the bootstrap created it. */
  lemma InitScheduleProfileKeepsDefaultFlag(s: Store)
    requires ScheduleProfileRefsValid(s)
    ensures var r := InitScheduleProfile(s);
      && FindProfile(r.scheduleProfiles, DefaultName).Some?
      && r.scheduleProfiles[FindProfile(r.scheduleProfiles, DefaultName).value].hwDefault ==
           match FindProfile(s.scheduleProfiles, DefaultName)
           case Some(d0) => s.scheduleProfiles[d0].hwDefault
           case None => None
  {
    DefaultScheduleStage(s);
    DefaultScheduleFacts(s);
    var s1 := ScheduleProfile.ScheduleProfileCreateFactoryDefault(s, DefaultName);
    var d := FindProfile(s1.scheduleProfiles, DefaultName).value;
    var s2 := s1.(system := s1.system.(scheduleProfile := Some(d)));
    FactoryScheduleKeeps(s2, DefaultName, |s.queues|, d);
  }
}
