/**
 Leases as the processes use them: objects that open a lock file, take a `flock`
 on it and leave an owner record, and sets of leases taken all or nothing.
 */
module Locking {
  import opened Wrappers
  import opened Leases
  import opened Devices

  /** `owners/<resource>/<lease id>.json` */
  datatype OwnerRecord = OwnerRecord(resource: string, leaseId: nat)

  /**
   How leaving an owner record goes: the directory cannot be made, or the write raises before the record is
   there, or after, or not at all.
   */
  datatype RecordWrite = Written | NoDirectory | Lost | Late

  predicate Appears(write: RecordWrite) { write.Written? || write.Late? }

  /** A failed record: the lock was granted, and then the write raised. */
  datatype Taking = Granted | Busy | RecordFailed

  /** What the processes of one host share: the kernel's lock table and the owner directory. */
  class Host {
    var locks: map<nat, Hold>     // open file description -> granted lock
    var owners: set<OwnerRecord>
    var nextFd: nat
    var nextLeaseId: nat

    ghost predicate Valid()
      reads this
    {
      && (forall fd :: fd in locks ==> fd < nextFd)
      && (forall o :: o in owners ==> o.leaseId < nextLeaseId)
    }

    constructor ()
      ensures Valid() && locks == map[] && owners == {}
    {
      locks, owners, nextFd, nextLeaseId := map[], {}, 0, 0;
    }

    /** The kernel's own answer to a non-blocking `flock`. */
    method FlockNonBlocking(fd: nat, r: Request) returns (granted: bool)
      requires Valid() && fd < nextFd && fd !in locks
      modifies this`locks
      ensures granted <==> Free(old(locks), r)
      ensures locks == if granted then old(locks)[fd := HoldOf(r)] else old(locks)
      ensures Valid()
    {
      granted := true;
      var rest := locks.Keys;
      while rest != {}
        invariant rest <= locks.Keys
        invariant granted <==> forall k :: k in locks.Keys - rest ==> !Conflicts(locks[k], HoldOf(r))
        decreases |rest|
      {
        var k :| k in rest;
        if Conflicts(locks[k], HoldOf(r)) {
          granted := false;
        }
        rest := rest - {k};
      }
      assert locks.Keys - rest == locks.Keys;
      if granted {
        locks := locks[fd := HoldOf(r)];
      }
    }
  }

  class Lease {
    const host: Host
    const request: Request
    const leaseId: nat
    var fd: Option<nat>
    var ownerPath: Option<OwnerRecord>

    constructor (host: Host, request: Request)
      requires host.Valid()
      modifies host`nextLeaseId
      ensures this.host == host && this.request == request && Idle()
      ensures host.Valid() && leaseId == old(host.nextLeaseId) && host.nextLeaseId == leaseId + 1
    {
      this.host, this.request, this.leaseId := host, request, host.nextLeaseId;
      fd, ownerPath := None, None;
      new;
      host.nextLeaseId := host.nextLeaseId + 1;
    }

    ghost predicate Idle()
      reads this
    {
      fd.None? && ownerPath.None?
    }

    function Record(): OwnerRecord { OwnerRecord(SafeName(request.name), leaseId) }

    /** A busy lock has its descriptor closed again; an error about the record leaves the lock taken. */
    method Acquire(write: RecordWrite) returns (taking: Taking)
      requires host.Valid() && Idle() && leaseId < host.nextLeaseId
      modifies this, host
      ensures host.Valid() && host.nextLeaseId == old(host.nextLeaseId) && host.nextFd == old(host.nextFd) + 1
      ensures taking == if !Free(old(host.locks), request) then Busy else if write.Written? then Granted else RecordFailed
      ensures !taking.Busy? ==> fd == Some(old(host.nextFd)) && ownerPath == if write.NoDirectory? then None else Some(Record())
      ensures !taking.Busy? ==> host.locks == old(host.locks)[old(host.nextFd) := HoldOf(request)]
      ensures taking.Busy? ==> Idle() && host.locks == old(host.locks)
      ensures host.owners == old(host.owners) + if taking.Busy? || !Appears(write) then {} else {Record()}
    {
      var descriptor := host.nextFd;
      host.nextFd := descriptor + 1;
      fd := Some(descriptor);
      var granted := host.FlockNonBlocking(descriptor, request);
      if !granted {
        fd := None;
        return Busy;
      }
      if write.NoDirectory? {
        return RecordFailed;
      }
      ownerPath := Some(Record());
      if Appears(write) {
        host.owners := host.owners + {Record()};
      }
      taking := if write.Written? then Granted else RecordFailed;
    }

    /** Safe to call at any time: drops the owner record and the lock if there are any. */
    method Release()
      requires host.Valid()
      modifies this, host
      ensures host.Valid() && Idle()
      ensures host.nextLeaseId == old(host.nextLeaseId) && host.nextFd == old(host.nextFd)
      ensures host.locks == if old(fd).Some? then old(host.locks) - {old(fd).value} else old(host.locks)
      ensures host.owners == if old(ownerPath).Some? then old(host.owners) - {old(ownerPath).value} else old(host.owners)
    {
      if ownerPath.Some? {
        host.owners := host.owners - {ownerPath.value};
        ownerPath := None;
      }
      if fd.Some? {
        host.locks := host.locks - {fd.value};
        fd := None;
      }
    }
  }

  /** The lock table after taking the leases of `plan` on consecutive descriptors from `fd`. */
  function Taken(locks: map<nat, Hold>, fd: nat, plan: seq<Request>): map<nat, Hold> {
    if plan == [] then locks
    else Taken(locks, fd, plan[..|plan| - 1])[fd + |plan| - 1 := HoldOf(plan[|plan| - 1])]
  }

  lemma {:induction false} TakenKeys(locks: map<nat, Hold>, fd: nat, plan: seq<Request>)
    ensures forall k :: k in Taken(locks, fd, plan) <==> k in locks || fd <= k < fd + |plan|
    ensures forall k :: fd <= k < fd + |plan| ==> Taken(locks, fd, plan)[k] == HoldOf(plan[k - fd])
    ensures forall k :: k in locks && k < fd ==> Taken(locks, fd, plan)[k] == locks[k]
  {
    if plan != [] {
      TakenKeys(locks, fd, plan[..|plan| - 1]);
    }
  }

  lemma TakenUndone(locks: map<nat, Hold>, fd: nat, plan: seq<Request>, gone: set<nat>)
    requires forall k :: k in locks ==> k < fd
    requires forall k :: k in gone <==> fd <= k < fd + |plan|
    ensures Taken(locks, fd, plan) - gone == locks
  {
    TakenKeys(locks, fd, plan);
  }

  /** All but the last lease undone: the last one is still in the table. */
  lemma TakenUndoneButLast(locks: map<nat, Hold>, fd: nat, plan: seq<Request>, i: nat, gone: set<nat>)
    requires i < |plan| && forall k :: k in locks ==> k < fd
    requires forall k :: k in gone <==> fd <= k < fd + i
    ensures Taken(locks, fd, plan[..i + 1]) - gone == locks[fd + i := HoldOf(plan[i])]
  {
    assert plan[..i + 1][..i] == plan[..i];
    TakenUndone(locks, fd, plan[..i], gone);
    assert Taken(locks, fd, plan[..i + 1]) == Taken(locks, fd, plan[..i])[fd + i := HoldOf(plan[i])];
  }

  /** Lease `k` can be had: its lock is free and its owner record will be written. */
  ghost predicate Clear(locks: map<nat, Hold>, plan: seq<Request>, writes: nat -> RecordWrite, k: nat)
    requires k < |plan|
  {
    Free(locks, plan[k]) && writes(k).Written?
  }

  ghost predicate ClearUpTo(locks: map<nat, Hold>, plan: seq<Request>, writes: nat -> RecordWrite, i: nat)
    requires i <= |plan|
  {
    forall k :: 0 <= k < i ==> Clear(locks, plan, writes, k)
  }

  /** The first lease from `k` on that cannot be had. */
  ghost function StopsFrom(locks: map<nat, Hold>, plan: seq<Request>, writes: nat -> RecordWrite, k: nat): (i: nat)
    requires k <= |plan|
    ensures k <= i <= |plan| && forall j :: k <= j < i ==> Clear(locks, plan, writes, j)
    ensures i < |plan| ==> !Clear(locks, plan, writes, i)
    decreases |plan| - k
  {
    if k == |plan| || !Clear(locks, plan, writes, k) then k else StopsFrom(locks, plan, writes, k + 1)
  }

  ghost function StopsAt(locks: map<nat, Hold>, plan: seq<Request>, writes: nat -> RecordWrite): (i: nat)
    ensures i <= |plan|
  {
    StopsFrom(locks, plan, writes, 0)
  }

  /** What stops it is an owner record. */
  ghost predicate Breaks(locks: map<nat, Hold>, plan: seq<Request>, writes: nat -> RecordWrite) {
    var i := StopsAt(locks, plan, writes);
    i < |plan| && Free(locks, plan[i])
  }

  lemma StopsExactlyAt(locks: map<nat, Hold>, plan: seq<Request>, writes: nat -> RecordWrite, i: nat)
    requires i <= |plan| && ClearUpTo(locks, plan, writes, i) && (i < |plan| ==> !Clear(locks, plan, writes, i))
    ensures StopsAt(locks, plan, writes) == i && (Breaks(locks, plan, writes) <==> i < |plan| && Free(locks, plan[i]))
  {
  }

  /** Nothing stops it exactly when every lock is free and every record will be written. */
  lemma StopsNowhere(locks: map<nat, Hold>, plan: seq<Request>, writes: nat -> RecordWrite)
    ensures StopsAt(locks, plan, writes) == |plan| <==> AllFree(locks, plan) && forall k :: 0 <= k < |plan| ==> writes(k).Written?
    ensures !Breaks(locks, plan, writes) ==> (StopsAt(locks, plan, writes) == |plan| <==> AllFree(locks, plan))
  {
    if StopsAt(locks, plan, writes) == |plan| {
      forall k | 0 <= k < |plan| ensures Free(locks, plan[k]) && writes(k).Written? {
        assert Clear(locks, plan, writes, k);
      }
    }
  }

  /** A set's own leases never stand in each other's way. */
  lemma OwnLeasesDoNotConflict(locks: map<nat, Hold>, fd: nat, plan: seq<Request>, i: nat)
    requires DistinctFiles(plan) && i < |plan| && forall k :: k in locks ==> k < fd
    ensures Free(Taken(locks, fd, plan[..i]), plan[i]) <==> Free(locks, plan[i])
  {
    var taken := Taken(locks, fd, plan[..i]);
    TakenKeys(locks, fd, plan[..i]);
    if Free(locks, plan[i]) {
      forall k | k in taken ensures !Conflicts(taken[k], HoldOf(plan[i])) {
        if k >= fd {
          assert taken[k] == HoldOf(plan[k - fd]);
        } else {
          assert k in locks;
        }
      }
    }
    if Free(taken, plan[i]) {
      forall k | k in locks ensures !Conflicts(locks[k], HoldOf(plan[i])) {
        assert k in taken;
      }
    }
  }

  class LeaseSet {
    const host: Host
    const plan: seq<Request>
    const leases: seq<Lease>

    ghost predicate Valid()
      reads this, host, leases
    {
      && host.Valid()
      && |leases| == |plan|
      && (forall i :: 0 <= i < |leases| ==>
            leases[i].host == host && leases[i].request == plan[i] && leases[i].leaseId < host.nextLeaseId)
      && (forall i, j :: 0 <= i < j < |leases| ==> leases[i].leaseId != leases[j].leaseId)
    }

    ghost predicate Idle()
      reads leases
    {
      forall i :: 0 <= i < |leases| ==> leases[i].Idle()
    }

    /** No owner record of these leases lies about. */
    ghost predicate Unrecorded()
      reads this, host
    {
      forall i :: 0 <= i < |leases| ==> leases[i].Record() !in host.owners
    }

    constructor (host: Host, requests: seq<Request>)
      requires host.Valid()
      modifies host`nextLeaseId
      ensures Valid() && Idle() && Unrecorded() && this.host == host && IsPlanFor(requests, plan)
      ensures fresh(leases)
    {
      var merged := Merge(requests);
      var built: seq<Lease> := [];
      for i := 0 to |merged|
        invariant host.Valid() && host.nextLeaseId >= old(host.nextLeaseId)
        invariant |built| == i && fresh(built)
        invariant forall k :: 0 <= k < i ==> built[k].host == host && built[k].request == merged[k] && built[k].Idle()
        invariant forall k :: 0 <= k < i ==> old(host.nextLeaseId) <= built[k].leaseId < host.nextLeaseId
        invariant forall k, l :: 0 <= k < l < i ==> built[k] != built[l] && built[k].leaseId != built[l].leaseId
      {
        var lease := new Lease(host, merged[i]);
        built := built + [lease];
      }
      this.host, this.plan, this.leases := host, merged, built;
    }

    ghost function Records(n: nat): set<OwnerRecord>
      requires n <= |leases|
    {
      set i | 0 <= i < n :: leases[i].Record()
    }

    lemma RecordsGrow(n: nat)
      requires n < |leases|
      ensures Records(n + 1) == Records(n) + {leases[n].Record()}
    {
    }

    /** Where the set stands after `n` of its leases, from the lock table and owners it started with. */
    ghost predicate Progress(n: nat, locks: map<nat, Hold>, owners: set<OwnerRecord>, fd: nat)
      reads this, host, leases
      requires n <= |leases| && |leases| == |plan|
    {
      && host.locks == Taken(locks, fd, plan[..n])
      && host.owners == owners + Records(n)
      && (forall i :: 0 <= i < n ==> leases[i].fd == Some(fd + i) && leases[i].ownerPath == Some(leases[i].Record()))
      && (forall i :: n <= i < |leases| ==> leases[i].Idle())
    }

    /** Lease `i` on its own: the other leases stay as they are. */
    method AcquireAt(i: nat, write: RecordWrite) returns (taking: Taking)
      requires Valid() && i < |leases| && leases[i].Idle()
      modifies host, leases
      ensures Valid() && host.nextLeaseId == old(host.nextLeaseId) && host.nextFd == old(host.nextFd) + 1
      ensures taking == if !Free(old(host.locks), plan[i]) then Busy else if write.Written? then Granted else RecordFailed
      ensures host.locks == if taking.Busy? then old(host.locks) else old(host.locks)[old(host.nextFd) := HoldOf(plan[i])]
      ensures host.owners == old(host.owners) + if taking.Busy? || !Appears(write) then {} else {leases[i].Record()}
      ensures taking.Busy? ==> leases[i].Idle()
      ensures !taking.Busy? ==> leases[i].fd == Some(old(host.nextFd))
      ensures !taking.Busy? ==> leases[i].ownerPath == if write.NoDirectory? then None else Some(leases[i].Record())
      ensures forall j :: 0 <= j < |leases| && j != i ==> leases[j].fd == old(leases[j].fd) && leases[j].ownerPath == old(leases[j].ownerPath)
    {
      OthersKept(i);
      taking := leases[i].Acquire(write);
    }

    /** The leases up to `i` are held, and no others; the record of lease `i` is there or not. */
    ghost predicate Broken(i: nat, locks: map<nat, Hold>, owners: set<OwnerRecord>, fd: nat, write: RecordWrite)
      reads this, host, leases
      requires i < |leases| == |plan|
    {
      && host.locks == Taken(locks, fd, plan[..i + 1])
      && host.owners == owners + Records(i) + (if Appears(write) then {leases[i].Record()} else {})
      && (forall j :: 0 <= j < i ==> leases[j].fd == Some(fd + j) && leases[j].ownerPath == Some(leases[j].Record()))
      && leases[i].fd == Some(fd + i) && leases[i].ownerPath == (if write.NoDirectory? then None else Some(leases[i].Record()))
      && (forall j :: i < j < |leases| ==> leases[j].Idle())
    }

    /** Take lease `i` after the ones before it: granted unless a lock granted earlier conflicts or the record fails. */
    method TakeNext(i: nat, write: RecordWrite, ghost locks: map<nat, Hold>, ghost owners: set<OwnerRecord>, ghost fd: nat)
      returns (taking: Taking)
      requires Valid() && i < |leases| && Progress(i, locks, owners, fd) && host.nextFd == fd + i
      requires DistinctFiles(plan) && forall k :: k in locks ==> k < fd
      modifies host, leases
      ensures Valid() && host.nextLeaseId == old(host.nextLeaseId)
      ensures taking == if !Free(locks, plan[i]) then Busy else if write.Written? then Granted else RecordFailed
      ensures taking.Granted? ==> Progress(i + 1, locks, owners, fd) && host.nextFd == fd + i + 1
      ensures taking.Busy? ==> Progress(i, locks, owners, fd)
      ensures taking.RecordFailed? ==> Broken(i, locks, owners, fd, write)
    {
      NextIsFree(i, locks, owners, fd);
      taking := AcquireAt(i, write);
      assert forall j :: 0 <= j < i ==> leases[j].fd == Some(fd + j) && leases[j].ownerPath == Some(leases[j].Record());
      assert forall j :: i < j < |leases| ==> leases[j].Idle();
      if taking.Granted? {
        Advanced(i, locks, owners, fd);
      }
      if taking.RecordFailed? {
        BrokenOff(i, locks, owners, fd, write);
      }
    }

    lemma Advanced(i: nat, locks: map<nat, Hold>, owners: set<OwnerRecord>, fd: nat)
      requires i < |leases| == |plan|
      requires host.locks == Taken(locks, fd, plan[..i])[fd + i := HoldOf(plan[i])]
      requires host.owners == owners + Records(i) + {leases[i].Record()}
      requires forall j :: 0 <= j < i ==> leases[j].fd == Some(fd + j) && leases[j].ownerPath == Some(leases[j].Record())
      requires leases[i].fd == Some(fd + i) && leases[i].ownerPath == Some(leases[i].Record())
      requires forall j :: i < j < |leases| ==> leases[j].Idle()
      ensures Progress(i + 1, locks, owners, fd)
    {
      RedoTaken(locks, fd, i);
      RecordsGrow(i);
    }

    lemma BrokenOff(i: nat, locks: map<nat, Hold>, owners: set<OwnerRecord>, fd: nat, write: RecordWrite)
      requires i < |leases| == |plan|
      requires host.locks == Taken(locks, fd, plan[..i])[fd + i := HoldOf(plan[i])]
      requires host.owners == owners + Records(i) + (if Appears(write) then {leases[i].Record()} else {})
      requires forall j :: 0 <= j < i ==> leases[j].fd == Some(fd + j) && leases[j].ownerPath == Some(leases[j].Record())
      requires leases[i].fd == Some(fd + i) && leases[i].ownerPath == if write.NoDirectory? then None else Some(leases[i].Record())
      requires forall j :: i < j < |leases| ==> leases[j].Idle()
      ensures Broken(i, locks, owners, fd, write)
    {
      RedoTaken(locks, fd, i);
    }

    lemma NextIsFree(i: nat, locks: map<nat, Hold>, owners: set<OwnerRecord>, fd: nat)
      requires Valid() && i < |leases| && Progress(i, locks, owners, fd)
      requires DistinctFiles(plan) && forall k :: k in locks ==> k < fd
      ensures Free(host.locks, plan[i]) <==> Free(locks, plan[i])
    {
      OwnLeasesDoNotConflict(locks, fd, plan, i);
    }

    lemma OthersKept(i: nat)
      requires Valid() && i < |leases|
      ensures forall j :: 0 <= j < |leases| && j != i ==> leases[j] != leases[i]
    {
    }

    lemma RedoTaken(locks: map<nat, Hold>, fd: nat, i: nat)
      requires i < |plan|
      ensures Taken(locks, fd, plan[..i + 1]) == Taken(locks, fd, plan[..i])[fd + i := HoldOf(plan[i])]
    {
      assert plan[..i + 1][..i] == plan[..i];
    }

    /** The descriptors of leases `i` up to `n`. */
    ghost function Fds(i: nat, n: nat): set<nat>
      reads leases
      requires n <= |leases|
    {
      set j | i <= j < n && leases[j].fd.Some? :: leases[j].fd.value
    }

    /** Their owner records. */
    ghost function Paths(i: nat, n: nat): set<OwnerRecord>
      reads leases
      requires n <= |leases|
    {
      set j | i <= j < n && leases[j].ownerPath.Some? :: leases[j].ownerPath.value
    }

    /** Release the first `n` leases in reverse, whatever they hold. */
    method RollBack(n: nat)
      requires Valid() && n <= |leases|
      modifies host, leases
      ensures Valid() && host.nextFd == old(host.nextFd) && host.nextLeaseId == old(host.nextLeaseId)
      ensures forall j :: 0 <= j < n ==> leases[j].Idle()
      ensures forall j :: n <= j < |leases| ==> leases[j].fd == old(leases[j].fd) && leases[j].ownerPath == old(leases[j].ownerPath)
      ensures host.locks == old(host.locks) - old(Fds(0, n)) && host.owners == old(host.owners) - old(Paths(0, n))
    {
      var i := n;
      while i > 0
        invariant 0 <= i <= n && Valid() && host.nextFd == old(host.nextFd) && host.nextLeaseId == old(host.nextLeaseId)
        invariant forall j :: i <= j < n ==> leases[j].Idle()
        invariant forall j :: 0 <= j < |leases| && !(i <= j < n) ==>
                    leases[j].fd == old(leases[j].fd) && leases[j].ownerPath == old(leases[j].ownerPath)
        invariant host.locks == old(host.locks) - old(Fds(i, n)) && host.owners == old(host.owners) - old(Paths(i, n))
      {
        i := i - 1;
        OthersKept(i);
        leases[i].Release();
      }
    }

    /** After a busy lock and the rollback nothing is left. */
    lemma NothingLeft(n: nat, locks: map<nat, Hold>, owners: set<OwnerRecord>, fd: nat)
      requires Valid() && n <= |leases| && Progress(n, locks, owners, fd) && forall k :: k in locks ==> k < fd
      requires forall i :: 0 <= i < |leases| ==> leases[i].Record() !in owners
      ensures host.locks - Fds(0, n) == locks && host.owners - Paths(0, n) == owners
    {
      forall k ensures k in Fds(0, n) <==> fd <= k < fd + n {
        if fd <= k < fd + n {
          assert leases[k - fd].fd == Some(k);
        }
      }
      TakenUndone(locks, fd, plan[..n], Fds(0, n));
      forall o ensures o in Paths(0, n) <==> o in Records(n) {
        if i :| 0 <= i < n && leases[i].Record() == o {
          assert leases[i].ownerPath == Some(o);
        }
      }
    }

    /** After a failed record and the rollback the broken lease is left. */
    lemma BrokenLeft(i: nat, locks: map<nat, Hold>, owners: set<OwnerRecord>, fd: nat, write: RecordWrite)
      requires Valid() && i < |leases| && Broken(i, locks, owners, fd, write) && forall k :: k in locks ==> k < fd
      requires forall i :: 0 <= i < |leases| ==> leases[i].Record() !in owners
      ensures host.locks - Fds(0, i) == locks[fd + i := HoldOf(plan[i])]
      ensures host.owners - Paths(0, i) == owners + if Appears(write) then {leases[i].Record()} else {}
    {
      forall k ensures k in Fds(0, i) <==> fd <= k < fd + i {
        if fd <= k < fd + i {
          assert leases[k - fd].fd == Some(k);
        }
      }
      TakenUndoneButLast(locks, fd, plan, i, Fds(0, i));
      forall o ensures o in Paths(0, i) <==> o in Records(i) {
        if j :| 0 <= j < i && leases[j].Record() == o {
          assert leases[j].ownerPath == Some(o);
        }
      }
    }

    /** Lease `i` alone is held, its record there or not. */
    ghost predicate OnlyHolds(i: nat, locks: map<nat, Hold>, owners: set<OwnerRecord>, fd: nat, write: RecordWrite)
      reads this, host, leases
      requires i < |leases| == |plan|
    {
      && host.locks == locks[fd + i := HoldOf(plan[i])]
      && host.owners == owners + (if Appears(write) then {leases[i].Record()} else {})
      && leases[i].fd == Some(fd + i) && leases[i].ownerPath == (if write.NoDirectory? then None else Some(leases[i].Record()))
      && (forall j :: 0 <= j < |leases| && j != i ==> leases[j].Idle())
    }

    /** Where taking the leases in order has got to, and how it ended. */
    ghost predicate Reached(taking: Taking, i: nat, locks: map<nat, Hold>, owners: set<OwnerRecord>, fd: nat, writes: nat -> RecordWrite)
      reads this, host, leases
      requires |leases| == |plan|
    {
      && i == StopsAt(locks, plan, writes)
      && (taking.Granted? <==> i == |plan|)
      && (taking.RecordFailed? <==> Breaks(locks, plan, writes))
      && (if taking.RecordFailed? then i < |leases| && Broken(i, locks, owners, fd, writes(i)) else Progress(i, locks, owners, fd))
    }

    /** The leases in order, up to the first that cannot be had. */
    method TakeInOrder(writes: nat -> RecordWrite) returns (taking: Taking, i: nat)
      requires Valid() && Idle() && DistinctFiles(plan)
      modifies host, leases
      ensures Valid() && host.nextLeaseId == old(host.nextLeaseId)
      ensures Reached(taking, i, old(host.locks), old(host.owners), old(host.nextFd), writes)
    {
      ghost var locks, owners, fd := host.locks, host.owners, host.nextFd;
      i := 0;
      taking := Granted;
      while taking.Granted? && i < |leases|
        invariant 0 <= i <= |leases| && Valid() && host.nextLeaseId == old(host.nextLeaseId)
        invariant ClearUpTo(locks, plan, writes, i)
        invariant taking.Granted? ==> host.nextFd == fd + i && Progress(i, locks, owners, fd)
        invariant !taking.Granted? ==> i < |plan| && !Clear(locks, plan, writes, i) && (taking.Busy? <==> !Free(locks, plan[i]))
        invariant taking.Busy? ==> Progress(i, locks, owners, fd)
        invariant taking.RecordFailed? ==> Broken(i, locks, owners, fd, writes(i))
        decreases |leases| - i, taking.Granted?
      {
        taking := TakeNext(i, writes(i), locks, owners, fd);
        if taking.Granted? {
          i := i + 1;
        }
      }
      StopsExactlyAt(locks, plan, writes, i);
    }

    /**
     Non-blocking. It succeeds exactly when no lock already granted conflicts with the plan and no
     owner record fails. A busy lock leaves the lock table and the owner directory as they were; a failed
     record leaves its own lock taken, by a lease that is not among those rolled back.
     */
    method Acquire(writes: nat -> RecordWrite) returns (taking: Taking)
      requires Valid() && Idle() && Unrecorded() && DistinctFiles(plan)
      modifies host, leases
      ensures Valid() && host.nextLeaseId == old(host.nextLeaseId)
      ensures taking.Granted? <==> AllFree(old(host.locks), plan) && forall i :: 0 <= i < |plan| ==> writes(i).Written?
      ensures taking.RecordFailed? <==> Breaks(old(host.locks), plan, writes)
      ensures Left(taking, old(host.locks), old(host.owners), old(host.nextFd), writes)
    {
      ghost var locks, owners, fd := host.locks, host.owners, host.nextFd;
      var i: nat;
      taking, i := TakeInOrder(writes);
      StopsNowhere(locks, plan, writes);
      if !taking.Granted? {
        GiveUp(taking, i, locks, owners, fd, writes);
      }
    }

    /** The rollback of a refused acquisition. */
    method GiveUp(ghost taking: Taking, i: nat, ghost locks: map<nat, Hold>, ghost owners: set<OwnerRecord>, ghost fd: nat,
                  ghost writes: nat -> RecordWrite)
      requires Valid() && Reached(taking, i, locks, owners, fd, writes) && !taking.Granted? && forall k :: k in locks ==> k < fd
      requires forall i :: 0 <= i < |leases| ==> leases[i].Record() !in owners
      modifies host, leases
      ensures Valid() && host.nextLeaseId == old(host.nextLeaseId) && Left(taking, locks, owners, fd, writes)
    {
      AfterRollBack(taking, i, locks, owners, fd, writes);
      RollBack(i);
    }

    lemma AfterRollBack(taking: Taking, i: nat, locks: map<nat, Hold>, owners: set<OwnerRecord>, fd: nat, writes: nat -> RecordWrite)
      requires Valid() && Reached(taking, i, locks, owners, fd, writes) && forall k :: k in locks ==> k < fd
      requires forall i :: 0 <= i < |leases| ==> leases[i].Record() !in owners
      ensures taking.Busy? ==> host.locks - Fds(0, i) == locks && host.owners - Paths(0, i) == owners
      ensures taking.RecordFailed? ==> host.locks - Fds(0, i) == locks[fd + i := HoldOf(plan[i])]
      ensures taking.RecordFailed? ==> host.owners - Paths(0, i) == owners + if Appears(writes(i)) then {leases[i].Record()} else {}
    {
      if taking.Busy? {
        NothingLeft(i, locks, owners, fd);
      }
      if taking.RecordFailed? {
        BrokenLeft(i, locks, owners, fd, writes(i));
      }
    }

    /** What an acquisition leaves behind: everything, nothing, or the one lease whose record failed. */
    ghost predicate Left(taking: Taking, locks: map<nat, Hold>, owners: set<OwnerRecord>, fd: nat, writes: nat -> RecordWrite)
      reads this, host, leases
      requires |leases| == |plan|
    {
      match taking
      case Granted => Progress(|leases|, locks, owners, fd)
      case Busy => Idle() && host.locks == locks && host.owners == owners
      case RecordFailed =>
        var i := StopsAt(locks, plan, writes);
        i < |plan| && OnlyHolds(i, locks, owners, fd, writes(i))
    }

    /** Gives back whatever the set holds, in reverse; harmless when it holds nothing. */
    method Release()
      requires Valid()
      modifies host, leases
      ensures Valid() && Idle() && host.nextFd == old(host.nextFd) && host.nextLeaseId == old(host.nextLeaseId)
      ensures host.locks == old(host.locks) - old(Fds(0, |leases|)) && host.owners == old(host.owners) - old(Paths(0, |leases|))
    {
      RollBack(|leases|);
    }

    /** Whatever an acquisition left, releasing the set restores. */
    lemma ReleaseRestores(taking: Taking, locks: map<nat, Hold>, owners: set<OwnerRecord>, fd: nat, writes: nat -> RecordWrite)
      requires Valid() && Left(taking, locks, owners, fd, writes) && forall k :: k in locks ==> k < fd
      requires forall i :: 0 <= i < |leases| ==> leases[i].Record() !in owners
      ensures host.locks - Fds(0, |leases|) == locks && host.owners - Paths(0, |leases|) == owners
    {
      match taking
      case Granted => NothingLeft(|leases|, locks, owners, fd);
      case Busy => IdleHasNothing();
      case RecordFailed =>
        var i := StopsAt(locks, plan, writes);
        LastLeft(i, locks, owners, fd, writes(i));
    }

    lemma IdleHasNothing()
      ensures Idle() ==> Fds(0, |leases|) == {} && Paths(0, |leases|) == {}
    {
    }

    /** Releasing the lease that was left restores everything. */
    lemma LastLeft(i: nat, locks: map<nat, Hold>, owners: set<OwnerRecord>, fd: nat, write: RecordWrite)
      requires Valid() && i < |leases| && OnlyHolds(i, locks, owners, fd, write) && forall k :: k in locks ==> k < fd
      requires leases[i].Record() !in owners
      ensures host.locks - Fds(0, |leases|) == locks && host.owners - Paths(0, |leases|) == owners
    {
      assert forall k :: k in Fds(0, |leases|) <==> k == fd + i;
      assert forall o :: o in Paths(0, |leases|) <==> !write.NoDirectory? && o == leases[i].Record();
    }
  }

  /** Whether the pool share and the card could be locked against this table. */
  ghost predicate DeviceFree(locks: map<nat, Hold>, device: string) {
    && GpuLeaseRequests(Some(device)).Some?
    && AllFree(locks, GpuLeaseRequests(Some(device)).value)
  }

  /** The probe of this device comes upon an owner record that cannot be written. */
  ghost predicate ProbeBreaks(locks: map<nat, Hold>, device: string, writes: nat -> RecordWrite) {
    GpuLeaseRequests(Some(device)).Some? && Breaks(locks, GpuLeaseRequests(Some(device)).value, writes)
  }

  ghost predicate ProbeAnswers(locks: map<nat, Hold>, device: string, writes: nat -> RecordWrite) {
    CanonicalDeviceId(device).Some? && !ProbeBreaks(locks, device, writes)
  }

  /** The owner records of the probes, by device and lease. */
  type Writes = nat -> nat -> RecordWrite

  /** The free devices in the order given; `None` when some device id is malformed or some probe breaks. */
  ghost function FreeAmong(locks: map<nat, Hold>, devices: seq<string>, writes: Writes): Option<seq<string>> {
    if devices == [] then Some([])
    else
      var n := |devices| - 1;
      var before, last := FreeAmong(locks, devices[..n], writes), devices[n];
      if before.None? || !ProbeAnswers(locks, last, writes(n)) then None
      else if DeviceFree(locks, last) then Some(before.value + [last])
      else before
  }

  lemma ProbePlan(device: string, plan: seq<Request>)
    requires GpuLeaseRequests(Some(device)).Some? && IsPlanFor(GpuLeaseRequests(Some(device)).value, plan)
    ensures plan == GpuLeaseRequests(Some(device)).value && DistinctFiles(plan)
  {
    ProbeRequestsArePlan(Some(device));
    PlanUnique(GpuLeaseRequests(Some(device)).value, plan, GpuLeaseRequests(Some(device)).value);
    CardFile(device);
    SafeLiterals();
    assert |"gpu"| == 3 && |"gpu-cuda-"| == 9;
  }

  /** A malformed id, an answer, or an error about an owner record. */
  datatype Probe = Malformed | Answer(free: bool) | Failed

  /** One probe: take the leases a run on this card would take, and give them straight back, on errors too. */
  method ProbeDevice(host: Host, device: string, writes: nat -> RecordWrite) returns (probe: Probe)
    requires host.Valid()
    modifies host
    ensures host.Valid() && host.locks == old(host.locks) && host.owners == old(host.owners)
    ensures probe.Malformed? <==> CanonicalDeviceId(device).None?
    ensures probe.Failed? <==> ProbeBreaks(old(host.locks), device, writes)
    ensures probe.Answer? ==> (probe.free <==> DeviceFree(old(host.locks), device))
  {
    var requests := GpuLeaseRequests(Some(device));
    if requests.None? {
      return Malformed;
    }
    var leases := new LeaseSet(host, requests.value);
    ProbePlan(device, leases.plan);
    ghost var locks, owners, fd := host.locks, host.owners, host.nextFd;
    var taking := leases.Acquire(writes);
    StopsNowhere(locks, leases.plan, writes);
    leases.ReleaseRestores(taking, locks, owners, fd, writes);
    leases.Release();
    probe := if taking.RecordFailed? then Failed else Answer(taking.Granted?);
  }

  lemma FreeAmongStep(locks: map<nat, Hold>, devices: seq<string>, writes: Writes, i: nat)
    requires i < |devices| && FreeAmong(locks, devices[..i], writes).Some?
    ensures FreeAmong(locks, devices[..i + 1], writes) ==
            if !ProbeAnswers(locks, devices[i], writes(i)) then None
            else if DeviceFree(locks, devices[i]) then Some(FreeAmong(locks, devices[..i], writes).value + [devices[i]])
            else FreeAmong(locks, devices[..i], writes)
  {
    assert devices[..i + 1][..i] == devices[..i];
  }

  lemma {:induction false} AbortStays(locks: map<nat, Hold>, devices: seq<string>, writes: Writes, i: nat)
    requires i <= |devices| && FreeAmong(locks, devices[..i], writes).None?
    ensures FreeAmong(locks, devices, writes).None?
  {
    var n := |devices|;
    if i == n {
      assert devices[..n] == devices;
    } else {
      assert devices[..n - 1][..i] == devices[..i];
      AbortStays(locks, devices[..n - 1], writes, i);
    }
  }

  ghost predicate AllAnswer(locks: map<nat, Hold>, devices: seq<string>, writes: Writes) {
    forall k :: 0 <= k < |devices| ==> ProbeAnswers(locks, devices[k], writes(k))
  }

  lemma AllAnswerStep(locks: map<nat, Hold>, devices: seq<string>, writes: Writes)
    requires devices != []
    ensures AllAnswer(locks, devices, writes) <==>
            AllAnswer(locks, devices[..|devices| - 1], writes) && ProbeAnswers(locks, devices[|devices| - 1], writes(|devices| - 1))
  {
    var n := |devices| - 1;
    forall k | 0 <= k < n ensures ProbeAnswers(locks, devices[..n][k], writes(k)) <==> ProbeAnswers(locks, devices[k], writes(k)) {
    }
    if AllAnswer(locks, devices, writes) {
      assert ProbeAnswers(locks, devices[n], writes(n));
      forall k | 0 <= k < n ensures ProbeAnswers(locks, devices[..n][k], writes(k)) {
        assert ProbeAnswers(locks, devices[k], writes(k));
      }
    }
    if AllAnswer(locks, devices[..n], writes) && ProbeAnswers(locks, devices[n], writes(n)) {
      forall k | 0 <= k < |devices| ensures ProbeAnswers(locks, devices[k], writes(k)) {
        assert k < n ==> ProbeAnswers(locks, devices[..n][k], writes(k));
      }
    }
  }

  /** A device is reported exactly when it was asked about and could be locked. */
  lemma {:induction false} ReportsExactlyFree(locks: map<nat, Hold>, devices: seq<string>, writes: Writes, device: string)
    ensures FreeAmong(locks, devices, writes).Some? <==> AllAnswer(locks, devices, writes)
    ensures FreeAmong(locks, devices, writes).Some? ==>
              (device in FreeAmong(locks, devices, writes).value <==> device in devices && DeviceFree(locks, device))
  {
    if devices != [] {
      var n := |devices| - 1;
      ReportsExactlyFree(locks, devices[..n], writes, device);
      AllAnswerStep(locks, devices, writes);
      assert device in devices <==> device in devices[..n] || device == devices[n];
    }
  }

  /**
   Probing names exactly the free devices, in order, and leaves the lock table and the owner records as
   it found them, errors included. A malformed device id or a failed owner record aborts the probe.
   */
  method FreeDevices(host: Host, devices: seq<string>, writes: Writes) returns (result: Option<seq<string>>)
    requires host.Valid()
    modifies host
    ensures host.Valid() && host.locks == old(host.locks) && host.owners == old(host.owners)
    ensures result == FreeAmong(old(host.locks), devices, writes)
  {
    var free: seq<string> := [];
    for i := 0 to |devices|
      invariant host.Valid() && host.locks == old(host.locks) && host.owners == old(host.owners)
      invariant FreeAmong(old(host.locks), devices[..i], writes) == Some(free)
    {
      var probe := ProbeDevice(host, devices[i], writes(i));
      FreeAmongStep(old(host.locks), devices, writes, i);
      if !probe.Answer? {
        AbortStays(old(host.locks), devices, writes, i + 1);
        return None;
      }
      if probe.free {
        free := free + [devices[i]];
      }
    }
    assert devices[..|devices|] == devices;
    result := Some(free);
  }
}
