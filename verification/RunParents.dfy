/** Which parent a run gets when it is registered, and that it keeps it. */
module RunParents {
  import opened Wrappers
  import opened Registry
  import P = RegistryProtocol
  import R = RunLifecycle

  /** A promoted entry of the experiment, than which none is newer. */
  ghost predicate NewestPromoted(m: Entries, experiment: string, id: string) {
    && id in m && m[id].experiment == experiment && m[id].promoted
    && forall k :: k in m && m[k].experiment == experiment && m[k].promoted ==> m[k].createdAt <= m[id].createdAt
  }

  /** The parent is what the rule asks for: none, the one it names, or the newest promoted run of the experiment if there is one. */
  ghost predicate AsAsked(m: Entries, experiment: string, rule: P.ParentRule, parent: Option<string>) {
    match rule
    case NoParent => parent.None?
    case Named(id) => if |id| == 0 then parent.None? else parent == Some(id)
    case LatestPromoted =>
      && (parent.None? <==> forall k :: k in m && m[k].experiment == experiment ==> !m[k].promoted)
      && (parent.Some? ==> NewestPromoted(m, experiment, parent.value))
  }

  /** Entries are kept under their own ids. */
  ghost predicate OwnIds(m: Entries) { forall k :: k in m ==> m[k].runId == k }

  lemma ResolvedAsAsked(m: Entries, experiment: string, rule: P.ParentRule, parent: Option<string>)
    requires OwnIds(m)
    ensures P.ResolvesParent(m, experiment, rule, parent) <==> AsAsked(m, experiment, rule, parent)
  {
    if rule.LatestPromoted? {
      if P.ResolvesParent(m, experiment, rule, parent) {
        var found :| IsLatest(m, experiment, true, found) && parent == if found.Some? then Some(found.value.runId) else None;
        if found.Some? {
          var k :| k in m && m[k] == found.value;
          assert k == found.value.runId;
        }
      }
      if AsAsked(m, experiment, rule, parent) {
        var found := if parent.Some? then Some(m[parent.value]) else None;
        assert IsLatest(m, experiment, true, found);
      }
    }
  }

  /**
   In every run of the whole: a registration is possible exactly with the parent its rule asks for of the registry as it
   is then, and the entry carries that parent and everything else as launched.
   */
  lemma RegisteredAsAsked(steps: seq<R.Step>, s: R.State, id: string, parent: Option<string>)
    requires R.Leads(R.Initial(), steps, s) && id in s.runs && s.runs[id].Registering?
    ensures var entry, rule := s.runs[id].entry, s.runs[id].rule;
            && (R.Enabled(s, R.Register(id, parent)) <==> AsAsked(s.file, entry.experiment, rule, parent))
            && (R.Enabled(s, R.Register(id, parent)) ==> R.Apply(s, R.Register(id, parent)).file == s.file[id := entry.(parent := parent)])
  {
    assert R.Inv([], R.Initial());
    R.RunsKeepInv([], R.Initial(), steps, s);
    assert R.Newcomer(id, s.runs[id]);
    ResolvedAsAsked(s.file, s.runs[id].entry.experiment, s.runs[id].rule, parent);
  }
}
