/**
 * What the queue-profile and schedule-profile tables have in common: lookup by name,
 * find-or-create, and the find-or-insert of the entry row a profile holds for a queue.
 * The C code writes each of these twice, once per table; here each is written once.
 */
module Profiles {
  import opened Wrappers
  import opened Association
  import opened Schema

  function FindProfileFrom(t: seq<Profile>, name: string, i: nat): (r: Option<Id>)
    requires i <= |t|
    ensures r.Some? ==> i <= r.value < |t| && t[r.value].name == name
    ensures r.Some? ==> forall j :: i <= j < r.value ==> t[j].name != name
    ensures r.None? <==> forall j :: i <= j < |t| ==> t[j].name != name
    decreases |t| - i
  {
    if i == |t| then None
    else if t[i].name == name then Some(i)
    else FindProfileFrom(t, name, i + 1)
  }

  /**
   * Scan of a profile table for a row whose name equals `name` exactly; the first such
   * row, or None when no row has that name.
   */
  function FindProfile(t: seq<Profile>, name: string): (r: Option<Id>)
    ensures r.Some? ==> r.value < |t| && t[r.value].name == name
    ensures r.Some? ==> forall j :: 0 <= j < r.value ==> t[j].name != name
    ensures r.None? <==> forall j :: 0 <= j < |t| ==> t[j].name != name
  {
    FindProfileFrom(t, name, 0)
  }

  /** At most one row per name. */
  predicate UniqueNames(t: seq<Profile>) {
    forall i, j :: 0 <= i < j < |t| ==> t[i].name != t[j].name
  }

  /** t' keeps every row of t, under the same name, and may have more rows after them. */
  predicate KeepsNames(t: seq<Profile>, t': seq<Profile>) {
    |t| <= |t'| && forall i :: 0 <= i < |t| ==> t'[i].name == t[i].name
  }

  /** With unique names every row is found under its own name. */
  lemma FindUnique(t: seq<Profile>, i: nat)
    requires UniqueNames(t)
    requires i < |t|
    ensures FindProfile(t, t[i].name) == Some(i)
  {
  }

  /** Once a name is found, later writes that keep the names keep finding the same row. */
  lemma FindStable(t: seq<Profile>, t': seq<Profile>, name: string)
    requires KeepsNames(t, t')
    requires FindProfile(t, name).Some?
    ensures FindProfile(t', name) == FindProfile(t, name)
  {
    var i := FindProfile(t, name).value;
    var r := FindProfile(t', name);
    assert r.Some? by {
      assert t'[i].name == name;
    }
  }

  /** Rewriting a row without renaming it keeps every lookup that succeeded. */
  lemma FindUpdated(t: seq<Profile>, i: nat, p: Profile, name: string)
    requires i < |t| && p.name == t[i].name
    requires FindProfile(t, name).Some?
    ensures FindProfile(t[i := p], name) == FindProfile(t, name)
  {
    assert KeepsNames(t, t[i := p]);
    FindStable(t, t[i := p], name);
  }

  /** A row appended under a name no other row has is what lookup finds. */
  lemma FindAppended(t: seq<Profile>, p: Profile)
    requires FindProfile(t, p.name).None?
    ensures FindProfile(t + [p], p.name) == Some(|t|)
  {
    var t' := t + [p];
    assert forall j :: 0 <= j < |t| ==> t'[j] == t[j];
    assert t'[|t|].name == p.name;
  }

  /**
   * Find-or-create: a row named `name` is inserted only when none exists. The table
   * only grows, by at most that one fresh row.
   */
  function ProfileCommand(t: seq<Profile>, name: string): (r: seq<Profile>)
    ensures FindProfile(r, name).Some?
    ensures |t| <= |r| <= |t| + 1 && r[..|t|] == t
    ensures |r| == |t| + 1 <==> FindProfile(t, name).None?
    ensures |r| == |t| + 1 ==> r[|t|] == FreshProfile(name)
  {
    if FindProfile(t, name).None? then
      var r := t + [FreshProfile(name)];
      assert r[|t|].name == name;
      r
    else
      t
  }

  /** A second find-or-create of the same name inserts nothing. */
  lemma ProfileCommandIdempotent(t: seq<Profile>, name: string)
    ensures ProfileCommand(ProfileCommand(t, name), name) == ProfileCommand(t, name)
  {
  }

  /** Find-or-create never introduces a second row with an existing name. */
  lemma ProfileCommandKeepsNamesUnique(t: seq<Profile>, name: string)
    requires UniqueNames(t)
    ensures UniqueNames(ProfileCommand(t, name))
    ensures KeepsNames(t, ProfileCommand(t, name))
  {
    var r := ProfileCommand(t, name);
    if |r| == |t| + 1 {
      forall i, j | 0 <= i < j < |r|
        ensures r[i].name != r[j].name
      {
        if j == |t| {
          assert r[i] == t[i];
        } else {
          assert r[i] == t[i] && r[j] == t[j];
        }
      }
    }
  }

  /** Find-or-create adds no entries, so every entry reference still resolves. */
  lemma ProfileCommandKeepsEntriesIn(t: seq<Profile>, name: string, n: nat)
    requires EntriesIn(t, n)
    ensures EntriesIn(ProfileCommand(t, name), n)
  {
    var r := ProfileCommand(t, name);
    forall i, j | 0 <= i < |r| && 0 <= j < |r[i].entries|
      ensures r[i].entries[j].value < n
    {
      if i < |t| {
        assert r[i] == t[i];
      }
    }
  }

  /** Outcome of find-or-insert of an entry row: both tables, and the entry's id. */
  datatype Upsert<E> = Upsert(profiles: seq<Profile>, entries: seq<E>, entry: Id)

  /**
   * Inserts a fresh entry row and gives profile `pid` one more pair (q, new id): the
   * new key and value arrays are the old ones followed by q and the new id, and every
   * other profile is left as it was.
   */
  function InsertEntryRow<E>(profiles: seq<Profile>, entries: seq<E>, pid: Id, q: int, blank: E): (r: Upsert<E>)
    requires pid < |profiles|
    requires EntriesIn(profiles, |entries|)
    ensures |r.profiles| == |profiles|
    ensures EntriesIn(r.profiles, |r.entries|)
    ensures r.entries == entries + [blank] && r.entry == |entries|
    ensures Keys(r.profiles[pid].entries) == Keys(profiles[pid].entries) + [q]
    ensures Values(r.profiles[pid].entries) == Values(profiles[pid].entries) + [r.entry]
    ensures r.profiles[pid].entries[..|profiles[pid].entries|] == profiles[pid].entries
    ensures r.profiles == profiles[pid := profiles[pid].(entries := r.profiles[pid].entries)]
  {
    var p := profiles[pid];
    var id := |entries|;
    var ps := profiles[pid := p.(entries := p.entries + [Pair(q, id)])];
    assert EntriesIn(ps, id + 1) by {
      forall i, j | 0 <= i < |ps| && 0 <= j < |ps[i].entries|
        ensures ps[i].entries[j].value < id + 1
      {
        if i != pid || j < |p.entries| {
          assert ps[i].entries[j] == profiles[i].entries[j];
        }
      }
    }
    Upsert(ps, entries + [blank], id)
  }

  /**
   * The entry lookup followed by an insert when it finds nothing: afterwards the
   * profile maps q to the returned entry. An existing entry is reused and nothing
   * changes, so no duplicate key is ever created.
   */
  function UpsertEntry<E>(profiles: seq<Profile>, entries: seq<E>, pid: Id, q: int, blank: E): (r: Upsert<E>)
    requires pid < |profiles|
    requires EntriesIn(profiles, |entries|)
    ensures |r.profiles| == |profiles|
    ensures EntriesIn(r.profiles, |r.entries|)
    ensures r.entry < |r.entries|
    ensures Get(r.profiles[pid].entries, q) == Some(r.entry)
    ensures q in Keys(profiles[pid].entries) ==> r.profiles == profiles && r.entries == entries
    ensures q !in Keys(profiles[pid].entries) ==>
      && r == InsertEntryRow(profiles, entries, pid, q, blank)
      && r.profiles[pid].entries == profiles[pid].entries + [Pair(q, |entries|)]
    ensures NoDuplicateKeys(profiles[pid].entries) ==> NoDuplicateKeys(r.profiles[pid].entries)
    ensures r.profiles == profiles[pid := profiles[pid].(entries := r.profiles[pid].entries)]
    ensures profiles[pid].entries <= r.profiles[pid].entries
    ensures entries <= r.entries && |r.entries| <= |entries| + 1
    ensures forall e :: |entries| <= e < |r.entries| ==> r.entries[e] == blank
  {
    var p := profiles[pid];
    match Get(p.entries, q)
    case Some(e) =>
      assert e < |entries| by {
        var j :| 0 <= j < |p.entries| && p.entries[j] == Pair(q, e);
      }
      Upsert(profiles, entries, e)
    case None =>
      var r := InsertEntryRow(profiles, entries, pid, q, blank);
      GetAppend(p.entries, q, |entries|, q);
      assert r.profiles[pid].entries == p.entries + [Pair(q, |entries|)];
      assert NoDuplicateKeys(p.entries) ==> NoDuplicateKeys(r.profiles[pid].entries) by {
        if NoDuplicateKeys(p.entries) {
          AppendNoDuplicateKeys(p.entries, q, |entries|);
        }
      }
      r
  }

  /** An entry id found in a profile names an existing entry row. */
  lemma EntryInRange(profiles: seq<Profile>, n: nat, pid: Id, q: int)
    requires EntriesIn(profiles, n)
    requires pid < |profiles|
    requires Get(profiles[pid].entries, q).Some?
    ensures Get(profiles[pid].entries, q).value < n
  {
    var a := profiles[pid].entries;
    var j :| 0 <= j < |a| && a[j] == Pair(q, Get(a, q).value);
  }

  /**
   * The pairs a list of commands links when each names a queue the profile does not
   * link yet: the queue of command i, key(xs[i]), goes to the new row base + i.
   */
  function NumberedPairs<T>(xs: seq<T>, key: T -> int, base: nat): (a: Assoc<int, Id>)
    ensures |a| == |xs|
    ensures forall i :: 0 <= i < |xs| ==> a[i] == Pair(key(xs[i]), base + i)
  {
    seq(|xs|, i requires 0 <= i < |xs| => Pair(key(xs[i]), base + i))
  }

  /** The pairs of a non-empty list: the first command's pair, then the rest's, numbered on. */
  lemma NumberedPairsUnfold<T>(xs: seq<T>, key: T -> int, base: nat)
    requires 0 < |xs|
    ensures NumberedPairs(xs, key, base) == [Pair(key(xs[0]), base)] + NumberedPairs(xs[1..], key, base + 1)
  {
    var a := NumberedPairs(xs, key, base);
    var b := [Pair(key(xs[0]), base)] + NumberedPairs(xs[1..], key, base + 1);
    forall i | 0 < i < |a|
      ensures a[i] == b[i]
    {
      assert xs[1..][i - 1] == xs[i];
    }
  }

  /** No two commands of xs name the same queue. */
  predicate DistinctBy<T>(xs: seq<T>, key: T -> int) {
    forall i, j :: 0 <= i < j < |xs| ==> key(xs[i]) != key(xs[j])
  }

  /**
   * After the first command of xs is linked, the remaining commands still name distinct
   * queues that the profile does not link.
   */
  lemma RestStaysFresh<T>(a: Assoc<int, Id>, id: Id, xs: seq<T>, key: T -> int)
    requires 0 < |xs|
    requires DistinctBy(xs, key)
    requires forall i :: 0 <= i < |xs| ==> key(xs[i]) !in Keys(a)
    ensures DistinctBy(xs[1..], key)
    ensures forall i :: 0 <= i < |xs[1..]| ==> key(xs[1..][i]) !in Keys(a + [Pair(key(xs[0]), id)])
  {
    assert Keys(a + [Pair(key(xs[0]), id)]) == Keys(a) + [key(xs[0])];
    forall i | 0 <= i < |xs[1..]|
      ensures key(xs[1..][i]) !in Keys(a + [Pair(key(xs[0]), id)])
    {
      assert xs[1..][i] == xs[i + 1];
    }
  }
}
