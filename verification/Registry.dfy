/**
 The run registry: a dictionary of entries kept in one JSON file. `entries` with
 `order` is the dictionary and its insertion order; `RegistryFile` is what the
 atomic write leaves on disk, sorted by run id.
 */
module Registry {
  import opened Order
  import opened Wrappers

  datatype Status = Running | DryRun | Candidate | Rejected | Failed

  datatype Entry = Entry(
    runId: string,
    experiment: string,
    createdAt: int,
    updatedAt: int,
    status: Status,
    promoted: bool,
    parent: Option<string>,
    fields: map<string, string>       // paths, digests and notes
  )

  datatype Change =
    | SetStatus(status: Status)
    | SetPromoted(promoted: bool)
    | SetParent(parent: Option<string>)
    | SetField(name: string, value: string)

  datatype Error = AlreadyRegistered | UnknownRun | NoSuchAttribute | Cycle(at: string)

  type Entries = map<string, Entry>

  // ----- What register and update mean ------------------------------------------------------

  function Registered(m: Entries, e: Entry): Result<Entries, Error> {
    if e.runId in m then Err(AlreadyRegistered) else Ok(m[e.runId := e])
  }

  predicate HasAttribute(e: Entry, c: Change) { c.SetField? ==> c.name in e.fields }

  function Changed(e: Entry, c: Change): Entry {
    match c
    case SetStatus(s) => e.(status := s)
    case SetPromoted(p) => e.(promoted := p)
    case SetParent(p) => e.(parent := p)
    case SetField(n, v) => e.(fields := e.fields[n := v])
  }

  /** Attributes are set one by one; the first unknown one raises. */
  function ChangedAll(e: Entry, changes: seq<Change>): Option<Entry> {
    if changes == [] then Some(e)
    else
      var prefix := ChangedAll(e, changes[..|changes| - 1]);
      if prefix.None? || !HasAttribute(prefix.value, changes[|changes| - 1]) then None
      else Some(Changed(prefix.value, changes[|changes| - 1]))
  }

  function Updated(m: Entries, runId: string, changes: seq<Change>, now: int): Result<Entries, Error> {
    if runId !in m then Err(UnknownRun)
    else
      var e := ChangedAll(m[runId], changes);
      if e.None? then Err(NoSuchAttribute) else Ok(m[runId := e.value.(updatedAt := now)])
  }

  lemma {:induction false} ChangesKeepIdentity(e: Entry, changes: seq<Change>)
    ensures ChangedAll(e, changes).Some? ==>
              ChangedAll(e, changes).value.runId == e.runId &&
              ChangedAll(e, changes).value.experiment == e.experiment &&
              ChangedAll(e, changes).value.createdAt == e.createdAt
  {
    if changes != [] {
      ChangesKeepIdentity(e, changes[..|changes| - 1]);
    }
  }

  lemma {:induction false} FailedPrefixFails(e: Entry, changes: seq<Change>, i: nat)
    requires i <= |changes| && ChangedAll(e, changes[..i]).None?
    ensures ChangedAll(e, changes).None?
  {
    var n := |changes|;
    if i == n {
      assert changes[..n] == changes;
    } else {
      assert changes[..n - 1][..i] == changes[..i];
      FailedPrefixFails(e, changes[..n - 1], i);
    }
  }

  // ----- What latest means ----------------------------------------------------------------

  predicate Matches(e: Entry, experiment: string, promotedOnly: bool) {
    e.experiment == experiment && (!promotedOnly || e.promoted)
  }

  /** The entry is of the experiment, and promoted where only promoted ones are asked for. */
  predicate Asked(e: Entry, experiment: string, promotedOnly: bool) { e.experiment == experiment && (promotedOnly ==> e.promoted) }

  /** A newest entry asked for, or nothing when there is none. */
  ghost predicate IsLatest(m: Entries, experiment: string, promotedOnly: bool, found: Option<Entry>) {
    && (found.None? <==> forall k :: k in m ==> !Asked(m[k], experiment, promotedOnly))
    && (found.Some? ==>
          && (exists k :: k in m && m[k] == found.value)
          && Asked(found.value, experiment, promotedOnly)
          && forall k :: k in m && Asked(m[k], experiment, promotedOnly) ==> m[k].createdAt <= found.value.createdAt)
  }

  /** Among the newest matches, the one first in dictionary order. */
  ghost predicate FirstNewest(order: seq<string>, m: Entries, experiment: string, promotedOnly: bool, e: Entry) {
    exists i :: 0 <= i < |order| && order[i] in m && m[order[i]] == e && EarlierAreOlder(order, m, experiment, promotedOnly, e, i)
  }

  ghost predicate EarlierAreOlder(
      order: seq<string>, m: Entries, experiment: string, promotedOnly: bool, e: Entry, i: nat)
    requires i <= |order|
  {
    forall j :: 0 <= j < i && order[j] in m && Matches(m[order[j]], experiment, promotedOnly) ==>
      m[order[j]].createdAt < e.createdAt
  }

  /** `found`, at position `at`, is the first of the newest matches among the first `i` keys. */
  ghost predicate BestSoFar(
      order: seq<string>, m: Entries, experiment: string, promotedOnly: bool, i: nat, found: Option<Entry>, at: nat)
  {
    && i <= |order|
    && (forall j :: 0 <= j < i ==> order[j] in m)
    && (found.None? ==> forall j :: 0 <= j < i ==> !Matches(m[order[j]], experiment, promotedOnly))
    && (found.Some? ==>
          && at < i && m[order[at]] == found.value && Matches(found.value, experiment, promotedOnly)
          && EarlierAreOlder(order, m, experiment, promotedOnly, found.value, at)
          && forall j :: 0 <= j < i && Matches(m[order[j]], experiment, promotedOnly) ==>
               m[order[j]].createdAt <= found.value.createdAt)
  }

  lemma BestStep(
      order: seq<string>, m: Entries, experiment: string, promotedOnly: bool, i: nat, found: Option<Entry>, at: nat)
    requires BestSoFar(order, m, experiment, promotedOnly, i, found, at) && i < |order| && order[i] in m
    ensures var e := m[order[i]];
      if Matches(e, experiment, promotedOnly) && (found.None? || e.createdAt > found.value.createdAt)
      then BestSoFar(order, m, experiment, promotedOnly, i + 1, Some(e), i)
      else BestSoFar(order, m, experiment, promotedOnly, i + 1, found, at)
  {
  }

  lemma BestIsLatest(
      order: seq<string>, m: Entries, experiment: string, promotedOnly: bool, found: Option<Entry>, at: nat)
    requires DictOrder(order, m) && BestSoFar(order, m, experiment, promotedOnly, |order|, found, at)
    ensures IsLatest(m, experiment, promotedOnly, found)
    ensures found.Some? ==> FirstNewest(order, m, experiment, promotedOnly, found.value)
  {
    forall k | k in m ensures exists j :: 0 <= j < |order| && order[j] == k {
      assert k in order;
    }
  }

  // ----- What lineage means ---------------------------------------------------------------

  function Get(m: Entries, runId: string): Option<Entry> {
    if runId in m then Some(m[runId]) else None
  }

  /** The entry reached by following `n` parent links; an empty parent id is no parent. */
  function Ancestor(m: Entries, runId: string, n: nat): Option<Entry> {
    if n == 0 then Get(m, runId)
    else
      var child := Ancestor(m, runId, n - 1);
      if child.None? || child.value.parent.None? || child.value.parent.value == "" then None
      else Get(m, child.value.parent.value)
  }

  /** The chain comes back, at this run id, to a run already met. */
  ghost predicate RepeatsAt(m: Entries, runId: string, id: string) {
    exists i: nat, j: nat ::
      i < j && Ancestor(m, runId, i).Some? && Ancestor(m, runId, j).Some? &&
      Ancestor(m, runId, i).value.runId == id == Ancestor(m, runId, j).value.runId
  }

  ghost predicate ChainRepeats(m: Entries, runId: string) {
    exists id :: RepeatsAt(m, runId, id)
  }

  lemma {:induction false} NoAncestorAfterNone(m: Entries, runId: string, n: nat, k: nat)
    requires Ancestor(m, runId, n).None? && n <= k
    ensures Ancestor(m, runId, k).None?
  {
    if n < k {
      NoAncestorAfterNone(m, runId, n, k - 1);
    }
  }

  ghost predicate IsChain(m: Entries, runId: string, chain: seq<Entry>) {
    forall i :: 0 <= i < |chain| ==> Ancestor(m, runId, i) == Some(chain[i])
  }

  ghost predicate DistinctRuns(chain: seq<Entry>) {
    forall i, j :: 0 <= i < j < |chain| ==> chain[i].runId != chain[j].runId
  }

  function ChainIds(chain: seq<Entry>): set<string> { set e | e in chain :: e.runId }

  function ParentOf(m: Entries, e: Entry): Option<Entry> {
    if e.parent.Some? && e.parent.value != "" then Get(m, e.parent.value) else None
  }

  lemma ChainStep(m: Entries, runId: string, chain: seq<Entry>, current: Entry)
    requires IsChain(m, runId, chain) && DistinctRuns(chain) && ChainIds(chain) <= RunIds(m)
    requires Ancestor(m, runId, |chain|) == Some(current) && current.runId !in ChainIds(chain)
    ensures IsChain(m, runId, chain + [current]) && DistinctRuns(chain + [current])
    ensures ChainIds(chain + [current]) == ChainIds(chain) + {current.runId} <= RunIds(m)
    ensures Ancestor(m, runId, |chain| + 1) == ParentOf(m, current)
  {
    var longer := chain + [current];
    forall i | 0 <= i < |longer| ensures Ancestor(m, runId, i) == Some(longer[i]) {}
    forall i, j | 0 <= i < j < |longer| ensures longer[i].runId != longer[j].runId {
      assert longer[i] in chain;
    }
    forall id ensures id in ChainIds(longer) <==> id in ChainIds(chain) + {current.runId} {
      assert longer[|chain|] == current;
      if e :| e in chain && e.runId == id {
        assert e in longer;
      }
    }
    AncestorIsEntry(m, runId, |chain|);
  }

  lemma AncestorIsEntry(m: Entries, runId: string, n: nat)
    requires Ancestor(m, runId, n).Some?
    ensures Ancestor(m, runId, n).value.runId in RunIds(m)
  {
  }

  lemma DistinctChain(m: Entries, runId: string, chain: seq<Entry>)
    requires IsChain(m, runId, chain) && DistinctRuns(chain) && Ancestor(m, runId, |chain|).None?
    ensures !ChainRepeats(m, runId)
  {
    forall i: nat, j: nat | i < j && Ancestor(m, runId, i).Some? && Ancestor(m, runId, j).Some?
      ensures Ancestor(m, runId, i).value.runId != Ancestor(m, runId, j).value.runId
    {
      if j >= |chain| {
        NoAncestorAfterNone(m, runId, |chain|, j);
      }
    }
  }

  lemma FoundRepeat(m: Entries, runId: string, chain: seq<Entry>, current: Entry)
    requires IsChain(m, runId, chain) && Ancestor(m, runId, |chain|) == Some(current)
    requires current.runId in ChainIds(chain)
    ensures RepeatsAt(m, runId, current.runId) && ChainRepeats(m, runId)
  {
    var e :| e in chain && e.runId == current.runId;
    var i :| 0 <= i < |chain| && chain[i] == e;
    assert Ancestor(m, runId, i) == Some(e);
  }

  /** Each link followed uses up one run id, so the walk ends. */
  lemma SeenGrows(ids: set<string>, seen: set<string>, id: string)
    requires id in ids && id !in seen
    ensures |ids - (seen + {id})| < |ids - seen|
  {
    assert ids - seen == ids - (seen + {id}) + {id};
  }

  function RunIds(m: Entries): set<string> { set k | k in m :: m[k].runId }

  // ----- The file and the object ------------------------------------------------------------

  class RegistryFile {
    var order: seq<string>
    var entries: Entries

    ghost predicate Valid()
      reads this
    {
      DictOrder(order, entries)
    }

    constructor ()
      ensures Valid() && entries == map[]
    {
      order, entries := [], map[];
    }
  }

  /** The keys of a dictionary, each once, in some order. */
  ghost predicate DictOrder(order: seq<string>, entries: Entries) {
    && (forall k :: k in order <==> k in entries)
    && (forall i, j :: 0 <= i < j < |order| ==> order[i] != order[j])
  }

  lemma SortedDictOrder(order: seq<string>, entries: Entries)
    requires DictOrder(order, entries)
    ensures TotalOrder(StringLeq) && DictOrder(Sort(StringLeq, order), entries)
  {
    StringOrderIsTotal();
    SortMembers(StringLeq, order);
    RearrangedDistinct(order, Sort(StringLeq, order));
  }

  class ExperimentRegistry {
    const file: RegistryFile
    var order: seq<string>
    var entries: Entries

    ghost predicate Valid()
      reads this, file
    {
      file.Valid() && DictOrder(order, entries)
    }

    /** `__init__` with `_load`. */
    constructor (file: RegistryFile)
      requires file.Valid()
      ensures Valid() && this.file == file && entries == file.entries && order == file.order
    {
      this.file, order, entries := file, file.order, file.entries;
    }

    method Save()
      requires Valid()
      modifies file
      ensures Valid() && file.entries == entries
      ensures TotalOrder(StringLeq) && Sorted(StringLeq, file.order)
    {
      SortedDictOrder(order, entries);
      file.order := Sort(StringLeq, order);
      file.entries := entries;
    }

    method Register(entry: Entry) returns (result: Result<Entry, Error>)
      requires Valid()
      modifies this, file
      ensures Valid()
      ensures result == match Registered(old(entries), entry) case Ok(_) => Ok(entry) case Err(e) => Err(e)
      ensures result.Ok? ==> entries == Registered(old(entries), entry).value && file.entries == entries
      ensures result.Err? ==> entries == old(entries) && file.entries == old(file.entries)
    {
      if entry.runId in entries {
        return Err(AlreadyRegistered);
      }
      order := order + [entry.runId];
      entries := entries[entry.runId := entry];
      Save();
      result := Ok(entry);
    }

    /** An unknown attribute raises before anything is saved. */
    method Update(runId: string, changes: seq<Change>, now: int) returns (result: Result<Entry, Error>)
      requires Valid()
      modifies this, file
      ensures Valid()
      ensures result.Ok? <==> Updated(old(entries), runId, changes, now).Ok?
      ensures result.Err? ==> result.error == Updated(old(entries), runId, changes, now).error
      ensures result.Ok? ==>
                entries == Updated(old(entries), runId, changes, now).value &&
                file.entries == entries && runId in entries && result.value == entries[runId]
      ensures result.Err? ==> file.entries == old(file.entries)
    {
      if runId !in entries {
        return Err(UnknownRun);
      }
      ghost var first := entries[runId];
      for i := 0 to |changes|
        invariant Valid() && runId in entries && file.entries == old(file.entries)
        invariant ChangedAll(first, changes[..i]) == Some(entries[runId])
        invariant entries == old(entries)[runId := entries[runId]]
      {
        var entry := entries[runId];
        assert changes[..i + 1][..i] == changes[..i];
        if !HasAttribute(entry, changes[i]) {
          FailedPrefixFails(first, changes, i + 1);
          return Err(NoSuchAttribute);
        }
        entries := entries[runId := Changed(entry, changes[i])];
      }
      assert changes[..|changes|] == changes;
      entries := entries[runId := entries[runId].(updatedAt := now)];
      Save();
      result := Ok(entries[runId]);
    }

    /** `max` over the matches in dictionary order: the first of the newest. */
    method Latest(experiment: string, promotedOnly: bool) returns (found: Option<Entry>)
      requires Valid()
      ensures IsLatest(entries, experiment, promotedOnly, found)
      ensures found.Some? ==> FirstNewest(order, entries, experiment, promotedOnly, found.value)
    {
      found := None;
      ghost var at := 0;
      for i := 0 to |order|
        invariant BestSoFar(order, entries, experiment, promotedOnly, i, found, at)
      {
        assert order[i] in entries;
        var entry := entries[order[i]];
        BestStep(order, entries, experiment, promotedOnly, i, found, at);
        if Matches(entry, experiment, promotedOnly) && (found.None? || entry.createdAt > found.value.createdAt) {
          found := Some(entry);
          at := i;
        }
      }
      BestIsLatest(order, entries, experiment, promotedOnly, found, at);
    }

    /**
     The chain of ancestors, youngest first. It raises exactly when the parent links come
     back to a run already seen, and it always ends, whatever the registry holds.
     */
    method Lineage(runId: string) returns (result: Result<seq<Entry>, Error>)
      requires Valid()
      ensures result.Ok? <==> !ChainRepeats(entries, runId)
      ensures result.Ok? ==> IsChain(entries, runId, result.value) && Ancestor(entries, runId, |result.value|).None?
      ensures result.Err? ==> result.error.Cycle? && RepeatsAt(entries, runId, result.error.at)
    {
      var chain: seq<Entry> := [];
      var seen: set<string> := {};
      var current := Get(entries, runId);
      while current.Some?
        invariant current == Ancestor(entries, runId, |chain|)
        invariant IsChain(entries, runId, chain) && DistinctRuns(chain)
        invariant seen == ChainIds(chain) <= RunIds(entries)
        decreases |RunIds(entries) - seen|
      {
        if current.value.runId in seen {
          FoundRepeat(entries, runId, chain, current.value);
          return Err(Cycle(current.value.runId));
        }
        AncestorIsEntry(entries, runId, |chain|);
        SeenGrows(RunIds(entries), seen, current.value.runId);
        ChainStep(entries, runId, chain, current.value);
        seen := seen + {current.value.runId};
        chain := chain + [current.value];
        var parent := current.value.parent;
        current := if parent.Some? && parent.value != "" then Get(entries, parent.value) else None;
      }
      DistinctChain(entries, runId, chain);
      result := Ok(chain);
    }
  }
}
