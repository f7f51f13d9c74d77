/**
 * Schedule profiles (`qos` rows): the scheduling algorithm and weight of each queue.
 * A strict or WRR command overwrites the two scheduling columns of the queue's row,
 * creating the row first when the profile has none for that queue.
 */
module ScheduleProfile {
  import opened Wrappers
  import opened Association
  import opened Schema
  import opened Profiles
  import opened Sequences

  /**
   * Find-or-create of a schedule profile. It never reports an error; afterwards a
   * profile with that name exists, and when one existed already nothing changes.
   */
  function ScheduleProfileCommand(s: Store, name: string): (r: CommandResult)
    ensures !r.error
    ensures FindProfile(r.store.scheduleProfiles, name).Some?
    ensures FindProfile(s.scheduleProfiles, name).Some? ==> r.store == s
    ensures FindProfile(s.scheduleProfiles, name).None? ==>
      r.store.scheduleProfiles == s.scheduleProfiles + [FreshProfile(name)]
    ensures r.store == s.(scheduleProfiles := r.store.scheduleProfiles)
    ensures ScheduleProfileRefsValid(s) ==> ScheduleProfileRefsValid(r.store)
  {
    var t := ProfileCommand(s.scheduleProfiles, name);
    assert FindProfile(s.scheduleProfiles, name).None? ==> t == s.scheduleProfiles + [FreshProfile(name)] by {
      if FindProfile(s.scheduleProfiles, name).None? {
        assert t == t[..|s.scheduleProfiles|] + [t[|s.scheduleProfiles|]];
      }
    }
    assert ScheduleProfileRefsValid(s) ==> EntriesIn(t, |s.queues|) by {
      if ScheduleProfileRefsValid(s) {
        ProfileCommandKeepsEntriesIn(s.scheduleProfiles, name, |s.queues|);
      }
    }
    CommandResult(false, s.(scheduleProfiles := t))
  }

  /** What one strict or WRR command writes: the queue and its scheduling columns. */
  datatype QueueSetting = StrictQueue(queue: int) | WrrQueue(queue: int, weight: int)

  function SettingAlgorithm(c: QueueSetting): Algorithm {
    if c.StrictQueue? then Strict else Wrr
  }

  /** Strict scheduling clears the optional weight column; WRR stores its one weight. */
  function SettingWeight(c: QueueSetting): seq<int> {
    if c.StrictQueue? then [] else [c.weight]
  }

  /** The queue row the profile named `name` holds for queue q, if any. */
  function QueueOf(s: Store, name: string, q: int): Option<Id> {
    match FindProfile(s.scheduleProfiles, name)
    case None => None
    case Some(pid) => Get(s.scheduleProfiles[pid].entries, q)
  }

  /** The profile named `name` has a queue row for q holding algorithm alg and weight w. */
  predicate Schedules(s: Store, name: string, q: int, alg: Algorithm, w: seq<int>) {
    match QueueOf(s, name, q)
    case None => false
    case Some(e) => e < |s.queues| && s.queues[e].algorithm == Some(alg) && s.queues[e].weight == w
  }

  /**
   * The shared body of the strict and WRR commands. A missing profile is an error and
   * changes nothing. Otherwise the queue's row is reused or, if the profile has none,
   * appended and linked under the queue number; then its algorithm and weight are
   * overwritten. No other queue row changes, no row's hw_default changes, and only the
   * schedule-profile tables change.
   */
  function SetQueue(s: Store, name: string, c: QueueSetting): (r: CommandResult)
    requires ScheduleProfileRefsValid(s)
    ensures ScheduleProfileRefsValid(r.store)
    ensures r.error <==> FindProfile(s.scheduleProfiles, name).None?
    ensures r.error ==> r.store == s
    ensures !r.error ==> Schedules(r.store, name, c.queue, SettingAlgorithm(c), SettingWeight(c))
    ensures |r.store.scheduleProfiles| == |s.scheduleProfiles|
    ensures r.store == s.(scheduleProfiles := r.store.scheduleProfiles, queues := r.store.queues)
  {
    match FindProfile(s.scheduleProfiles, name)
    case None => CommandResult(true, s)
    case Some(pid) =>
      var u := UpsertEntry(s.scheduleProfiles, s.queues, pid, c.queue, FreshQueue);
      FindStable(s.scheduleProfiles, u.profiles, name);
      CommandResult(false, s.(scheduleProfiles := u.profiles, queues := WriteSetting(u.entries, u.entry, c)))
  }

  /**
   * A strict or WRR command touches no queue row but the one it resolves to, keeps every
   * row's hw_default, adds at most one row, and on a queue the profile already links
   * leaves the profiles as they were.
   */
  lemma SetQueueKeepsOthers(s: Store, name: string, c: QueueSetting)
    requires ScheduleProfileRefsValid(s)
    ensures var r := SetQueue(s, name, c);
      && |s.queues| <= |r.store.queues| <= |s.queues| + 1
      && (forall e :: 0 <= e < |s.queues| && Some(e) != QueueOf(s, name, c.queue) ==>
            r.store.queues[e] == s.queues[e])
      && (forall e :: 0 <= e < |s.queues| ==> r.store.queues[e].hwDefault == s.queues[e].hwDefault)
      && (QueueOf(s, name, c.queue).Some? ==>
            && r.store.scheduleProfiles == s.scheduleProfiles
            && |r.store.queues| == |s.queues|)
  {
    if FindProfile(s.scheduleProfiles, name).Some? {
      var pid := FindProfile(s.scheduleProfiles, name).value;
      var u := UpsertEntry(s.scheduleProfiles, s.queues, pid, c.queue, FreshQueue);
      var r := SetQueue(s, name, c);
      assert r.store.scheduleProfiles == u.profiles;
      assert r.store.queues == WriteSetting(u.entries, u.entry, c);
      var target := QueueOf(s, name, c.queue);
      if target.Some? {
        assert u.entry == target.value;
      } else {
        assert u.entry == |s.queues|;
      }
      forall e | 0 <= e < |s.queues| && Some(e) != target
        ensures r.store.queues[e] == s.queues[e]
      {
        assert u.entries[e] == s.queues[e];
      }
    }
  }

  /** Overwrites the algorithm and weight of row e; every other column and row is kept. */
  function WriteSetting(queues: seq<Queue>, e: Id, c: QueueSetting): (r: seq<Queue>)
    requires e < |queues|
    ensures |r| == |queues|
    ensures r[e].algorithm == Some(SettingAlgorithm(c)) && r[e].weight == SettingWeight(c)
    ensures r[e].hwDefault == queues[e].hwDefault
    ensures forall i :: 0 <= i < |queues| && i != e ==> r[i] == queues[i]
  {
    queues[e := queues[e].(algorithm := Some(SettingAlgorithm(c)), weight := SettingWeight(c))]
  }

  /**
   * Sets queue q of the profile to strict priority with no weight; a missing profile is
   * an error that changes nothing.
   */
  function ScheduleProfileStrictCommand(s: Store, name: string, q: int): (r: CommandResult)
    requires ScheduleProfileRefsValid(s)
    ensures ScheduleProfileRefsValid(r.store)
    ensures r.error <==> FindProfile(s.scheduleProfiles, name).None?
    ensures r.error ==> r.store == s
    ensures !r.error ==> Schedules(r.store, name, q, Strict, [])
  {
    SetQueue(s, name, StrictQueue(q))
  }

  /**
   * Sets queue q of the profile to weighted round robin with the single weight w; a
   * missing profile is an error that changes nothing.
   */
  function ScheduleProfileWrrCommand(s: Store, name: string, q: int, w: int): (r: CommandResult)
    requires ScheduleProfileRefsValid(s)
    ensures ScheduleProfileRefsValid(r.store)
    ensures r.error <==> FindProfile(s.scheduleProfiles, name).None?
    ensures r.error ==> r.store == s
    ensures !r.error ==> Schedules(r.store, name, q, Wrr, [w])
  {
    SetQueue(s, name, WrrQueue(q, w))
  }

  /** Repeating a strict or WRR command changes nothing more. */
  lemma SetQueueIdempotent(s: Store, name: string, c: QueueSetting)
    requires ScheduleProfileRefsValid(s)
    ensures var s1 := SetQueue(s, name, c).store;
      SetQueue(s1, name, c).store == s1
  {
    var s1 := SetQueue(s, name, c).store;
    if FindProfile(s.scheduleProfiles, name).Some? {
      var e := QueueOf(s1, name, c.queue).value;
      assert s1.queues[e := s1.queues[e].(algorithm := Some(SettingAlgorithm(c)), weight := SettingWeight(c))] == s1.queues;
    }
  }

  /**
   * Two commands on the same queue leave exactly what the second alone would: the
   * second overwrites both scheduling columns of the row the first created or reused.
   */
  lemma SetQueueLastWins(s: Store, name: string, c1: QueueSetting, c2: QueueSetting)
    requires ScheduleProfileRefsValid(s)
    requires c1.queue == c2.queue
    ensures SetQueue(SetQueue(s, name, c1).store, name, c2).store == SetQueue(s, name, c2).store
  {
    if FindProfile(s.scheduleProfiles, name).Some? {
      var pid := FindProfile(s.scheduleProfiles, name).value;
      var u := UpsertEntry(s.scheduleProfiles, s.queues, pid, c1.queue, FreshQueue);
      var s1 := SetQueue(s, name, c1).store;
      assert s1.scheduleProfiles == u.profiles;
      assert FindProfile(s1.scheduleProfiles, name) == Some(pid);
      assert Get(s1.scheduleProfiles[pid].entries, c2.queue) == Some(u.entry);
      var row2 := u.entries[u.entry].(algorithm := Some(SettingAlgorithm(c2)), weight := SettingWeight(c2));
      assert s1.queues[u.entry].(algorithm := Some(SettingAlgorithm(c2)), weight := SettingWeight(c2)) == row2;
      UpdateTwice(u.entries, u.entry, s1.queues[u.entry], row2);
    }
  }

  /**
   * The strict and WRR commands of cs, in order, on the profile named `name`; error
   * returns are ignored. (The store is part of the termination measure only so that the
   * verifier does not unfold this fold eagerly over the literal bootstrap list.)
   */
  function ApplyAll(s: Store, name: string, cs: seq<QueueSetting>): (s': Store)
    requires ScheduleProfileRefsValid(s)
    ensures ScheduleProfileRefsValid(s')
    ensures s' == s.(scheduleProfiles := s'.scheduleProfiles, queues := s'.queues)
    ensures |s'.scheduleProfiles| == |s.scheduleProfiles|
    decreases |cs|, s
  {
    if |cs| == 0 then s
    else ApplyAll(SetQueue(s, name, cs[0]).store, name, cs[1..])
  }

  /** Queue 7 strict; queues 6 down to 0 WRR with weight one more than the queue number. */
  const DefaultSchedule: seq<QueueSetting> := [
    StrictQueue(7),
    WrrQueue(6, 7),
    WrrQueue(5, 6),
    WrrQueue(4, 5),
    WrrQueue(3, 4),
    WrrQueue(2, 3),
    WrrQueue(1, 2),
    WrrQueue(0, 1)
  ]

  /** The queue row the factory-default schedule gives queue q (0..7). */
  function DefaultQueueRow(q: int): Queue {
    if q == 7 then Queue(Some(Strict), [], None) else Queue(Some(Wrr), [q + 1], None)
  }

  /**
   * Find-or-create the profile, unlink all its queue rows, then issue the default
   * strict and WRR commands. The lookup after the find-or-create cannot fail.
   */
  function ScheduleProfileCreateFactoryDefault(s: Store, name: string): (s': Store)
    requires ScheduleProfileRefsValid(s)
    ensures ScheduleProfileRefsValid(s')
    ensures |s'.scheduleProfiles| == |s.scheduleProfiles| + if FindProfile(s.scheduleProfiles, name).None? then 1 else 0
    ensures s' == s.(scheduleProfiles := s'.scheduleProfiles, queues := s'.queues)
  {
    var s1 := ScheduleProfileCommand(s, name).store;
    var pid := FindProfile(s1.scheduleProfiles, name).value;
    ApplyAll(ClearQueues(s1, pid), name, DefaultSchedule)
  }

  /**
   * Unlinks every queue row of the profile at pid: it keeps its name and hw_default but
   * links no queue. The rows themselves, the other profiles and the other tables stay.
   */
  function ClearQueues(s: Store, pid: Id): (s': Store)
    requires pid < |s.scheduleProfiles|
    requires ScheduleProfileRefsValid(s)
    ensures ScheduleProfileRefsValid(s')
    ensures |s'.scheduleProfiles| == |s.scheduleProfiles|
    ensures s'.scheduleProfiles[pid].entries == []
    ensures s'.scheduleProfiles[pid].name == s.scheduleProfiles[pid].name
    ensures s'.scheduleProfiles[pid].hwDefault == s.scheduleProfiles[pid].hwDefault
    ensures forall i :: 0 <= i < |s.scheduleProfiles| && i != pid ==> s'.scheduleProfiles[i] == s.scheduleProfiles[i]
    ensures s' == s.(scheduleProfiles := s'.scheduleProfiles)
  {
    var t := s.scheduleProfiles[pid := s.scheduleProfiles[pid].(entries := [])];
    assert EntriesIn(t, |s.queues|) by {
      forall i, j | 0 <= i < |t| && 0 <= j < |t[i].entries|
        ensures t[i].entries[j].value < |s.queues|
      {
        assert t[i] == s.scheduleProfiles[i];
      }
    }
    s.(scheduleProfiles := t)
  }

  /** No two settings of cs name the same queue. */
  predicate DistinctQueues(cs: seq<QueueSetting>) {
    DistinctBy(cs, SettingQueue)
  }

  /** The pairs appended for cs when each queue gets a fresh row, numbered from base. */
  function SettingPairs(cs: seq<QueueSetting>, base: nat): (a: Assoc<int, Id>)
    ensures |a| == |cs|
  {
    NumberedPairs(cs, SettingQueue, base)
  }

  /** The queue a strict or WRR command names. */
  function SettingQueue(c: QueueSetting): int {
    c.queue
  }

  /** The fresh queue rows cs creates, one per setting. */
  function SettingRows(cs: seq<QueueSetting>): (qs: seq<Queue>)
    ensures |qs| == |cs|
  {
    seq(|cs|, i requires 0 <= i < |cs| => Queue(Some(SettingAlgorithm(cs[i])), SettingWeight(cs[i]), None))
  }

  lemma SettingUnfold(cs: seq<QueueSetting>, base: nat)
    requires 0 < |cs|
    ensures SettingPairs(cs, base) == [Pair(cs[0].queue, base)] + SettingPairs(cs[1..], base + 1)
    ensures SettingRows(cs) == [Queue(Some(SettingAlgorithm(cs[0])), SettingWeight(cs[0]), None)] + SettingRows(cs[1..])
  {
    assert SettingPairs(cs, base) == [Pair(cs[0].queue, base)] + SettingPairs(cs[1..], base + 1) by {
      NumberedPairsUnfold(cs, SettingQueue, base);
      assert SettingQueue(cs[0]) == cs[0].queue;
    }
    var qs := SettingRows(cs);
    var rs := [Queue(Some(SettingAlgorithm(cs[0])), SettingWeight(cs[0]), None)] + SettingRows(cs[1..]);
    forall i | 0 < i < |qs|
      ensures qs[i] == rs[i]
    {
      assert cs[1..][i - 1] == cs[i];
    }
  }

  /**
   * A command on a queue the profile has no row for appends the pair (queue, next row
   * id) and one fresh row holding the setting.
   */
  lemma SetQueueFresh(s: Store, name: string, c: QueueSetting)
    requires ScheduleProfileRefsValid(s)
    requires FindProfile(s.scheduleProfiles, name).Some?
    requires c.queue !in Keys(s.scheduleProfiles[FindProfile(s.scheduleProfiles, name).value].entries)
    ensures var pid := FindProfile(s.scheduleProfiles, name).value;
      var p := s.scheduleProfiles[pid];
      var s1 := SetQueue(s, name, c).store;
      && s1.scheduleProfiles == s.scheduleProfiles[pid := p.(entries := p.entries + [Pair(c.queue, |s.queues|)])]
      && s1.queues == s.queues + [Queue(Some(SettingAlgorithm(c)), SettingWeight(c), None)]
      && FindProfile(s1.scheduleProfiles, name) == Some(pid)
  {
    var pid := FindProfile(s.scheduleProfiles, name).value;
    var p := s.scheduleProfiles[pid];
    var u := UpsertEntry(s.scheduleProfiles, s.queues, pid, c.queue, FreshQueue);
    var row := Queue(Some(SettingAlgorithm(c)), SettingWeight(c), None);
    var s1 := SetQueue(s, name, c).store;
    assert s1.scheduleProfiles == u.profiles;
    assert u.entries == s.queues + [FreshQueue] && u.entry == |s.queues|;
    assert s1.queues == WriteSetting(u.entries, u.entry, c);
    UpdateLast(s.queues, FreshQueue, row);
    FindUpdated(s.scheduleProfiles, pid, p.(entries := p.entries + [Pair(c.queue, |s.queues|)]), name);
  }

  /**
   * On a profile that has none of the queues of cs yet, and with each queue named once,
   * the commands append one fresh row per setting and one pair per setting, in order.
   */
  lemma {:induction false} ApplyAllAppends(s: Store, name: string, cs: seq<QueueSetting>)
    requires ScheduleProfileRefsValid(s)
    requires FindProfile(s.scheduleProfiles, name).Some?
    requires DistinctQueues(cs)
    requires forall i :: 0 <= i < |cs| ==>
      cs[i].queue !in Keys(s.scheduleProfiles[FindProfile(s.scheduleProfiles, name).value].entries)
    ensures var pid := FindProfile(s.scheduleProfiles, name).value;
      var p := s.scheduleProfiles[pid];
      var s' := ApplyAll(s, name, cs);
      && s'.scheduleProfiles == s.scheduleProfiles[pid := p.(entries := p.entries + SettingPairs(cs, |s.queues|))]
      && s'.queues == s.queues + SettingRows(cs)
    decreases |cs|
  {
    var pid := FindProfile(s.scheduleProfiles, name).value;
    var p := s.scheduleProfiles[pid];
    var base := |s.queues|;
    if |cs| == 0 {
      assert p.entries + SettingPairs(cs, base) == p.entries;
      assert s.scheduleProfiles[pid := p] == s.scheduleProfiles;
    } else {
      var c := cs[0];
      var s1 := SetQueue(s, name, c).store;
      SetQueueFresh(s, name, c);
      RestStaysFresh(p.entries, base, cs, SettingQueue);
      ApplyAllAppends(s1, name, cs[1..]);
      assert ApplyAll(s, name, cs) == ApplyAll(s1, name, cs[1..]);
      AppendsStep(s.scheduleProfiles, s.queues, pid, cs, s1, ApplyAll(s1, name, cs[1..]));
    }
  }

  /** Chaining one fresh command with the appends of the remaining ones. */
  lemma AppendsStep(t: seq<Profile>, qs: seq<Queue>, pid: Id, cs: seq<QueueSetting>, s1: Store, s': Store)
    requires pid < |t| && 0 < |cs|
    requires s1.scheduleProfiles == t[pid := t[pid].(entries := t[pid].entries + [Pair(cs[0].queue, |qs|)])]
    requires s1.queues == qs + [Queue(Some(SettingAlgorithm(cs[0])), SettingWeight(cs[0]), None)]
    requires s'.scheduleProfiles == s1.scheduleProfiles[pid := s1.scheduleProfiles[pid].(entries := s1.scheduleProfiles[pid].entries + SettingPairs(cs[1..], |s1.queues|))]
    requires s'.queues == s1.queues + SettingRows(cs[1..])
    ensures s'.scheduleProfiles == t[pid := t[pid].(entries := t[pid].entries + SettingPairs(cs, |qs|))]
    ensures s'.queues == qs + SettingRows(cs)
  {
    var p := t[pid];
    var base := |qs|;
    var a1 := p.entries + [Pair(cs[0].queue, base)];
    SettingUnfold(cs, base);
    ConcatAssoc(p.entries, [Pair(cs[0].queue, base)], SettingPairs(cs[1..], base + 1));
    ConcatAssoc(qs, [Queue(Some(SettingAlgorithm(cs[0])), SettingWeight(cs[0]), None)], SettingRows(cs[1..]));
    UpdateTwice(t, pid, p.(entries := a1), p.(entries := a1 + SettingPairs(cs[1..], base + 1)));
  }

  /** The default list names queues 7 down to 0, once each. */
  lemma DefaultScheduleQueues()
    ensures |DefaultSchedule| == 8
    ensures DistinctQueues(DefaultSchedule)
    ensures forall j :: 0 <= j < 8 ==> DefaultSchedule[j].queue == 7 - j
  {
  }

  /** The j-th default setting writes the default row of queue 7 - j. */
  lemma DefaultScheduleRows()
    ensures |SettingRows(DefaultSchedule)| == 8
    ensures forall j :: 0 <= j < 8 ==> SettingRows(DefaultSchedule)[j] == DefaultQueueRow(7 - j)
  {
  }

  /**
   * Whatever the profile held before, the factory-default builder leaves it linking
   * exactly the pairs (7, b), (6, b + 1), ..., (0, b + 7), where b is the old size of
   * the queue table, and appends the eight default queue rows. Every other profile,
   * every old queue row and every other table is unchanged.
   */
  lemma CreateFactoryDefaultLayout(s: Store, name: string)
    requires ScheduleProfileRefsValid(s)
    ensures var s1 := ScheduleProfileCommand(s, name).store;
      var s' := ScheduleProfileCreateFactoryDefault(s, name);
      var pid := FindProfile(s1.scheduleProfiles, name).value;
      && FindProfile(s'.scheduleProfiles, name) == Some(pid)
      && s'.scheduleProfiles == s1.scheduleProfiles[pid := s1.scheduleProfiles[pid].(entries := SettingPairs(DefaultSchedule, |s.queues|))]
      && s'.queues == s.queues + SettingRows(DefaultSchedule)
      && s' == s.(scheduleProfiles := s'.scheduleProfiles, queues := s'.queues)
  {
    var s1 := ScheduleProfileCommand(s, name).store;
    var pid := FindProfile(s1.scheduleProfiles, name).value;
    DefaultOnProfile(s1, name, pid);
  }

  /** Clearing a profile's queues and issuing the default commands leaves the default layout. */
  lemma DefaultOnProfile(s: Store, name: string, pid: Id)
    requires ScheduleProfileRefsValid(s)
    requires FindProfile(s.scheduleProfiles, name) == Some(pid)
    ensures var s' := ApplyAll(ClearQueues(s, pid), name, DefaultSchedule);
      && FindProfile(s'.scheduleProfiles, name) == Some(pid)
      && s'.scheduleProfiles == s.scheduleProfiles[pid := s.scheduleProfiles[pid].(entries := SettingPairs(DefaultSchedule, |s.queues|))]
      && s'.queues == s.queues + SettingRows(DefaultSchedule)
      && s' == s.(scheduleProfiles := s'.scheduleProfiles, queues := s'.queues)
  {
    var p := s.scheduleProfiles[pid];
    var s2 := ClearQueues(s, pid);
    FindUpdated(s.scheduleProfiles, pid, p.(entries := []), name);
    DefaultScheduleQueues();
    ApplyAllOnCleared(s2, name, pid, DefaultSchedule);
    var p' := p.(entries := SettingPairs(DefaultSchedule, |s.queues|));
    UpdateTwice(s.scheduleProfiles, pid, p.(entries := []), p');
    FindUpdated(s.scheduleProfiles, pid, p', name);
  }

  /** Distinct-queue commands on a profile with no queues append exactly their layout. */
  lemma ApplyAllOnCleared(s: Store, name: string, pid: Id, cs: seq<QueueSetting>)
    requires ScheduleProfileRefsValid(s)
    requires FindProfile(s.scheduleProfiles, name) == Some(pid)
    requires s.scheduleProfiles[pid].entries == []
    requires DistinctQueues(cs)
    ensures var s' := ApplyAll(s, name, cs);
      && s'.scheduleProfiles == s.scheduleProfiles[pid := s.scheduleProfiles[pid].(entries := SettingPairs(cs, |s.queues|))]
      && s'.queues == s.queues + SettingRows(cs)
      && s' == s.(scheduleProfiles := s'.scheduleProfiles, queues := s'.queues)
  {
    ApplyAllAppends(s, name, cs);
    var pairs := SettingPairs(cs, |s.queues|);
    assert [] + pairs == pairs;
  }

  /**
   * Looking up the default pairs: queue q in 0..7 resolves to row b + 7 - q; no other
   * queue number resolves.
   */
  lemma DefaultPairsLookup(b: nat)
    ensures forall q :: 0 <= q < 8 ==> Get(SettingPairs(DefaultSchedule, b), q) == Some(b + 7 - q)
    ensures forall q :: (q < 0 || 7 < q) ==> Get(SettingPairs(DefaultSchedule, b), q).None?
  {
    DefaultScheduleQueues();
    forall q | 0 <= q < 8
      ensures Get(SettingPairs(DefaultSchedule, b), q) == Some(b + 7 - q)
    {
      SettingPairsGet(DefaultSchedule, b, 7 - q);
    }
    forall q | q < 0 || 7 < q
      ensures Get(SettingPairs(DefaultSchedule, b), q).None?
    {
      SettingPairsMissing(DefaultSchedule, b, q);
    }
  }

  /** With distinct queues, the i-th setting's queue resolves to row base + i. */
  lemma SettingPairsGet(cs: seq<QueueSetting>, base: nat, i: nat)
    requires DistinctQueues(cs)
    requires i < |cs|
    ensures Get(SettingPairs(cs, base), cs[i].queue) == Some(base + i)
  {
    var pairs := SettingPairs(cs, base);
    assert NoDuplicateKeys(pairs) by {
      forall j, k | 0 <= j < k < |pairs|
        ensures pairs[j].key != pairs[k].key
      {
        assert pairs[j].key == cs[j].queue;
      }
    }
    GetUnique(pairs, i);
  }

  /** A queue no setting names does not resolve. */
  lemma SettingPairsMissing(cs: seq<QueueSetting>, base: nat, q: int)
    requires forall i :: 0 <= i < |cs| ==> cs[i].queue != q
    ensures Get(SettingPairs(cs, base), q).None?
  {
    var pairs := SettingPairs(cs, base);
    assert forall i :: 0 <= i < |pairs| ==> pairs[i].key == cs[i].queue;
  }

  /**
   * The profile named `name` links exactly queues 0..7, queue q to row b + 7 - q, and
   * that row holds the default setting of q.
   */
  ghost predicate HoldsDefaultSchedule(s: Store, name: string, b: nat) {
    && (forall q :: 0 <= q < 8 ==> QueueOf(s, name, q) == Some(b + 7 - q))
    && (forall q :: (q < 0 || 7 < q) ==> QueueOf(s, name, q).None?)
    && b + 8 <= |s.queues|
    && (forall q :: 0 <= q < 8 ==> s.queues[b + 7 - q] == DefaultQueueRow(q))
  }

  /** A profile holding the default pairs resolves every queue as the defaults say. */
  lemma DefaultLayoutSchedules(s': Store, name: string, pid: Id, old_queues: seq<Queue>)
    requires FindProfile(s'.scheduleProfiles, name) == Some(pid)
    requires s'.scheduleProfiles[pid].entries == SettingPairs(DefaultSchedule, |old_queues|)
    requires s'.queues == old_queues + SettingRows(DefaultSchedule)
    ensures HoldsDefaultSchedule(s', name, |old_queues|)
  {
    var b := |old_queues|;
    DefaultLayoutQueues(s', name, pid, b);
    DefaultLayoutRows(s'.queues, old_queues);
    HoldsFromParts(s', name, b);
  }

  lemma HoldsFromParts(s: Store, name: string, b: nat)
    requires forall q :: 0 <= q < 8 ==> QueueOf(s, name, q) == Some(b + 7 - q)
    requires forall q :: (q < 0 || 7 < q) ==> QueueOf(s, name, q).None?
    requires b + 8 <= |s.queues|
    requires forall q :: 0 <= q < 8 ==> s.queues[b + 7 - q] == DefaultQueueRow(q)
    ensures HoldsDefaultSchedule(s, name, b)
  {
  }

  lemma DefaultLayoutQueues(s': Store, name: string, pid: Id, b: nat)
    requires FindProfile(s'.scheduleProfiles, name) == Some(pid)
    requires s'.scheduleProfiles[pid].entries == SettingPairs(DefaultSchedule, b)
    ensures forall q :: 0 <= q < 8 ==> QueueOf(s', name, q) == Some(b + 7 - q)
    ensures forall q :: (q < 0 || 7 < q) ==> QueueOf(s', name, q).None?
  {
    DefaultPairsLookup(b);
  }

  lemma DefaultLayoutRows(qs: seq<Queue>, old_queues: seq<Queue>)
    requires qs == old_queues + SettingRows(DefaultSchedule)
    ensures |old_queues| + 8 <= |qs|
    ensures forall q :: 0 <= q < 8 ==> qs[|old_queues| + 7 - q] == DefaultQueueRow(q)
  {
    var b := |old_queues|;
    var rows := SettingRows(DefaultSchedule);
    DefaultScheduleRows();
    forall q | 0 <= q < 8
      ensures qs[b + 7 - q] == DefaultQueueRow(q)
    {
      assert qs[b + 7 - q] == rows[7 - q];
    }
  }

  /**
   * Read through the profile: after the builder, queue q in 0..7 resolves to the row
   * b + 7 - q holding the default setting of q, and no other queue number resolves,
   * where b is the old size of the queue table.
   */
  lemma CreateFactoryDefaultSchedules(s: Store, name: string)
    requires ScheduleProfileRefsValid(s)
    ensures HoldsDefaultSchedule(ScheduleProfileCreateFactoryDefault(s, name), name, |s.queues|)
  {
    CreateFactoryDefaultLayout(s, name);
    var s1 := ScheduleProfileCommand(s, name).store;
    var pid := FindProfile(s1.scheduleProfiles, name).value;
    DefaultLayoutSchedules(ScheduleProfileCreateFactoryDefault(s, name), name, pid, s.queues);
  }
}
