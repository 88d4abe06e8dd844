/**
 The vocabulary of experiment leases: requests, their lock files, the plan a
 lease set takes from its requests, and the plans that runs and probes use.
 */
module Leases {
  import opened Order

  datatype Request = Request(name: string, shared: bool)

  /** One granted `flock`: the lock file and whether it is shared. */
  datatype Hold = Hold(file: string, shared: bool)

  predicate IsDigit(c: char) { '0' <= c <= '9' }

  predicate IsAlnum(c: char) {
    IsDigit(c) || 'a' <= c <= 'z' || 'A' <= c <= 'Z'
  }

  function SafeChar(c: char): char {
    if IsAlnum(c) || c == '-' || c == '_' then c else '-'
  }

  function SafeName(value: string): (r: string)
    ensures |r| == |value|
    ensures forall i :: 0 <= i < |r| ==> r[i] == SafeChar(value[i])
  {
    if value == [] then [] else [SafeChar(value[0])] + SafeName(value[1..])
  }

  function HoldOf(r: Request): Hold { Hold(SafeName(r.name), r.shared) }

  /** `flock` admits two holders of one file only when both are shared. */
  predicate Conflicts(a: Hold, b: Hold) {
    a.file == b.file && !(a.shared && b.shared)
  }

  ghost predicate Free<K(!new)>(locks: map<K, Hold>, r: Request) {
    forall k :: k in locks ==> !Conflicts(locks[k], HoldOf(r))
  }

  ghost predicate AllFree<K(!new)>(locks: map<K, Hold>, plan: seq<Request>) {
    forall i :: 0 <= i < |plan| ==> Free(locks, plan[i])
  }

  /** No two leases of the plan use one lock file. */
  ghost predicate DistinctFiles(plan: seq<Request>) {
    forall i, j :: 0 <= i < j < |plan| ==> SafeName(plan[i].name) != SafeName(plan[j].name)
  }

  // ----- The merged, sorted plan of a lease set --------------------------------

  ghost predicate StrictlySorted(plan: seq<Request>) {
    forall i, j :: 0 <= i < j < |plan| ==> StringLess(plan[i].name, plan[j].name)
  }

  ghost predicate Names(requests: seq<Request>, name: string) {
    exists q :: q in requests && q.name == name
  }

  ghost predicate SharedByAll(requests: seq<Request>, name: string) {
    forall q :: q in requests && q.name == name ==> q.shared
  }

  /** One request per name, in name order, shared only if every request was. */
  ghost predicate IsPlanFor(requests: seq<Request>, plan: seq<Request>) {
    && StrictlySorted(plan)
    && (forall r :: r in plan ==> Names(requests, r.name) && (r.shared <==> SharedByAll(requests, r.name)))
    && (forall q :: q in requests ==> Names(plan, q.name))
  }

  lemma ExtendRequests(requests: seq<Request>, i: nat, name: string)
    requires i < |requests|
    ensures Names(requests[..i + 1], name) <==> Names(requests[..i], name) || requests[i].name == name
    ensures SharedByAll(requests[..i + 1], name) <==>
            SharedByAll(requests[..i], name) && (requests[i].name == name ==> requests[i].shared)
  {
    assert requests[..i + 1] == requests[..i] + [requests[i]];
  }

  method Merge(requests: seq<Request>) returns (plan: seq<Request>)
    ensures IsPlanFor(requests, plan)
  {
    var merged: map<string, Request> := map[];
    var order: seq<string> := [];
    for i := 0 to |requests|
      invariant forall n :: n in merged <==> n in order
      invariant forall n :: n in merged ==> merged[n].name == n
      invariant forall n :: n in merged <==> Names(requests[..i], n)
      invariant forall n :: n in merged ==> (merged[n].shared <==> SharedByAll(requests[..i], n))
      invariant forall a, b :: 0 <= a < b < |order| ==> order[a] != order[b]
    {
      var request := requests[i];
      forall n ensures Names(requests[..i + 1], n) <==> Names(requests[..i], n) || request.name == n
               ensures SharedByAll(requests[..i + 1], n) <==>
                       SharedByAll(requests[..i], n) && (request.name == n ==> request.shared)
      {
        ExtendRequests(requests, i, n);
      }
      if request.name !in merged {
        order := order + [request.name];
        merged := merged[request.name := request];
      } else if merged[request.name].shared && !request.shared {
        merged := merged[request.name := request];
      }
    }
    assert requests[..|requests|] == requests;
    StringOrderIsTotal();
    var names := Sort(StringLeq, order);
    SortMembers(StringLeq, order);
    RearrangedDistinct(order, names);
    plan := seq(|names|, i requires 0 <= i < |names| => assert names[i] in names; merged[names[i]]);
    MergedIsPlan(requests, merged, names, plan);
  }

  lemma MergedIsPlan(requests: seq<Request>, merged: map<string, Request>, names: seq<string>, plan: seq<Request>)
    requires forall n :: n in merged <==> n in names
    requires forall n :: n in merged ==> merged[n].name == n && (merged[n].shared <==> SharedByAll(requests, n))
    requires forall n :: n in merged <==> Names(requests, n)
    requires Sorted(StringLeq, names) && forall a, b :: 0 <= a < b < |names| ==> names[a] != names[b]
    requires |plan| == |names| && forall i :: 0 <= i < |names| ==> names[i] in merged && plan[i] == merged[names[i]]
    ensures IsPlanFor(requests, plan)
  {
    forall q | q in requests ensures Names(plan, q.name) {
      assert Names(requests, q.name);
      assert q.name in names;
      var j :| 0 <= j < |names| && names[j] == q.name;
      assert plan[j] in plan && plan[j].name == q.name;
    }
  }

  /** The plan is determined by the requests, so merging is a function of them. */
  lemma PlanUnique(requests: seq<Request>, a: seq<Request>, b: seq<Request>)
    requires IsPlanFor(requests, a) && IsPlanFor(requests, b)
    ensures a == b
  {
    StringOrderIsTotal();
    forall x: Request ensures multiset(a)[x] == multiset(b)[x] {
      PlanCount(requests, a, b, x);
      PlanCount(requests, b, a, x);
    }
    assert multiset(a) == multiset(b);
    var leq := (p: Request, q: Request) => StringLess(p.name, q.name) || (p.name == q.name && (p.shared ==> q.shared));
    RequestOrder(leq);
    SortedUnique(leq, a, b);
  }

  lemma RequestOrder(leq: (Request, Request) -> bool)
    requires leq == ((p: Request, q: Request) => StringLess(p.name, q.name) || (p.name == q.name && (p.shared ==> q.shared)))
    ensures TotalOrder(leq) && Antisymmetric(leq)
  {
    StringOrderIsTotal();
    forall p: Request, q: Request, r: Request | leq(p, q) && leq(q, r) ensures leq(p, r) {
      if p.name != q.name && q.name != r.name {
        StringLeqTransitive(p.name, q.name, r.name);
        if p.name == r.name {
          StringLeqAntisymmetric(p.name, q.name);
        }
      }
    }
    forall p: Request, q: Request | leq(p, q) && leq(q, p) ensures p == q {
      if p.name != q.name {
        StringLeqAntisymmetric(p.name, q.name);
      }
    }
  }

  lemma PlanCount(requests: seq<Request>, a: seq<Request>, b: seq<Request>, x: Request)
    requires IsPlanFor(requests, a) && IsPlanFor(requests, b)
    ensures multiset(a)[x] <= multiset(b)[x]
  {
    if x in multiset(a) {
      PlanHasOne(a, x);
      assert x in a;
      var q :| q in requests && q.name == x.name;
      var y :| y in b && y.name == q.name;
      assert y == x;
      assert x in multiset(b);
    }
  }

  lemma {:induction false} PlanHasOne(a: seq<Request>, x: Request)
    requires StrictlySorted(a)
    ensures multiset(a)[x] <= 1
  {
    if a != [] {
      assert a == [a[0]] + a[1..];
      PlanHasOne(a[1..], x);
      if a[0] == x {
        assert x !in a[1..];
        assert multiset(a[1..])[x] == 0;
      }
    }
  }
}
