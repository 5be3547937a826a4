// The registry as in-memory tables (crawloop/registry.py), and promotion
// (crawloop/loop/promote.py) as a composition of its operations. Source gating is a
// parameter; files, hashes and timestamps are not part of this model.
module Registry {
  import opened Wrappers
  import opened Values
  import opened Ladder

  datatype FamilyStatus = Healthy | Degraded | Regenerating | Escalated

  datatype Family = Family(patterns: seq<string>, schemaRef: string, status: FamilyStatus)

  datatype Event =
    | Promotion(toVersion: int, residual: seq<string>)
    | Escalation(reason: string)
    | HybridFill(url: string, filled: set<string>)
    | AccessRecovered(host: string, strategy: string, round: int)

  datatype Audit = Audit(family: Option<string>, event: Event)

  datatype History = History(family: string, url: string, version: int, items: seq<Record>)

  datatype Domain = Domain(strategy: Option<string>, status: Option<string>)

  /** The newest promote audit of `family` that names version `n`. */
  function NewestPromotion(audit: seq<Audit>, family: string, n: int): Option<Event> {
    if audit == [] then None
    else
      var last := audit[|audit| - 1];
      if last.family == Some(family) && last.event.Promotion? && last.event.toVersion == n then Some(last.event)
      else NewestPromotion(audit[..|audit| - 1], family, n)
  }

  /** `active_residual_fields`: follows the version that is live now. */
  function ActiveResidual(versions: seq<Version>, audit: seq<Audit>, family: string): seq<string> {
    match ActiveN(RowsOf(versions, family))
    case None => []
    case Some(n) => match NewestPromotion(audit, family, n)
      case Some(Promotion(_, residual)) => residual
      case _ => []
  }

  class Registry {
    const gate: string -> bool
    var families: map<string, Family>
    var versions: seq<Version>
    var audit: seq<Audit>
    var history: seq<History>
    var domains: map<string, Domain>

    constructor (gate: string -> bool)
      ensures this.gate == gate && versions == [] && audit == [] && history == []
      ensures families == map[] && domains == map[]
    {
      this.gate := gate;
      families, versions, audit, history, domains := map[], [], [], [], map[];
    }

    /** `upsert_family`: an existing row keeps its status. */
    method UpsertFamily(family: string, patterns: seq<string>, schemaRef: string)
      modifies this`families
      ensures families == old(families)[family := Family(patterns, schemaRef,
        if family in old(families) then old(families)[family].status else Healthy)]
    {
      var status := if family in families then families[family].status else Healthy;
      families := families[family := Family(patterns, schemaRef, status)];
    }

    /** `set_family_status`: false stands for the LookupError on an unknown family. */
    method SetFamilyStatus(family: string, status: FamilyStatus) returns (found: bool)
      modifies this`families
      ensures found <==> family in old(families)
      ensures families == if found then old(families)[family := old(families)[family].(status := status)]
                          else old(families)
    {
      found := family in families;
      if found {
        families := families[family := families[family].(status := status)];
      }
    }

    /** `add_version`: nothing is written for a source the gate refuses. */
    method AddVersion(family: string, source: string) returns (n: Option<int>)
      modifies this`families, this`versions
      ensures n.Some? <==> gate(source)
      ensures n.None? ==> versions == old(versions) && families == old(families)
      ensures n.Some? ==>
        && n.value == MaxN(RowsOf(old(versions), family)) + 1
        && versions == Added(old(versions), family, source)
        && families == if family in old(families) then old(families)
                       else old(families)[family := Family([], "", Healthy)]
    {
      if !gate(source) {
        return None;
      }
      if family !in families {
        UpsertFamily(family, [], "");
      }
      var next := MaxN(RowsOf(versions, family)) + 1;
      versions := versions + [Version(family, next, Fallback, source, 0, 0)];
      n := Some(next);
    }

    /** `set_active`: false stands for the LookupError, which changes nothing. */
    method SetActive(family: string, n: int) returns (found: bool)
      modifies this`versions
      ensures found <==> Exists(old(versions), family, n)
      ensures versions == Activated(old(versions), family, n)
    {
      found := Exists(versions, family, n);
      if found {
        versions := Update(versions, family, Demote(Fallback));
        versions := Update(versions, family, Promote(n));
      }
    }

    /** `rollback`: `None` stands for the LookupError when there is no fallback. */
    method Rollback(family: string) returns (active: Option<int>)
      modifies this`versions
      ensures active == TopFallback(RowsOf(old(versions), family))
      ensures versions == RolledBack(old(versions), family)
    {
      active := TopFallback(RowsOf(versions, family));
      if active.Some? {
        versions := Update(versions, family, Demote(Archived));
        versions := Update(versions, family, Promote(active.value));
      }
    }

    /** `record_run`: false stands for the LookupError on an unknown version. */
    method RecordRun(family: string, n: int, ok: bool) returns (found: bool)
      modifies this`versions
      ensures found <==> Exists(old(versions), family, n)
      ensures versions == Update(old(versions), family, Credit(n, ok))
    {
      found := Exists(versions, family, n);
      versions := Update(versions, family, Credit(n, ok));
    }

    method WriteAudit(family: Option<string>, event: Event)
      modifies this`audit
      ensures audit == old(audit) + [Audit(family, event)]
    {
      audit := audit + [Audit(family, event)];
    }

    method RecordHistory(family: string, url: string, version: int, items: seq<Record>)
      modifies this`history
      ensures history == old(history) + [History(family, url, version, items)]
    {
      history := history + [History(family, url, version, items)];
    }

    /** `set_working_strategy`: the domain's status is left alone. */
    method SetWorkingStrategy(domain: string, strategy: string)
      modifies this`domains
      ensures domains == old(domains)[domain := Domain(Some(strategy),
        if domain in old(domains) then old(domains)[domain].status else None)]
    {
      var status := if domain in domains then domains[domain].status else None;
      domains := domains[domain := Domain(Some(strategy), status)];
    }

    /** `mark_domain_status`: the strategy known to work is left alone. */
    method MarkDomainStatus(domain: string, status: string)
      modifies this`domains
      ensures domains == old(domains)[domain := Domain(
        if domain in old(domains) then old(domains)[domain].strategy else None, Some(status))]
    {
      var strategy := if domain in domains then domains[domain].strategy else None;
      domains := domains[domain := Domain(strategy, Some(status))];
    }

    function WorkingStrategy(domain: string): Option<string>
      reads this`domains
    {
      if domain in domains then domains[domain].strategy else None
    }

    /** `promote`: add, activate, audit. `None` when the gate refuses the source. */
    method PromoteSource(family: string, source: string, residual: seq<string>) returns (n: Option<int>)
      modifies this`families, this`versions, this`audit
      ensures n.Some? <==> gate(source)
      ensures n.None? ==>
        versions == old(versions) && families == old(families) && audit == old(audit)
      ensures n.Some? ==>
        && n.value == MaxN(RowsOf(old(versions), family)) + 1
        && versions == Activated(Added(old(versions), family, source), family, n.value)
        && audit == old(audit) + [Audit(Some(family), Promotion(n.value, residual))]
        && families == if family in old(families) then old(families)
                       else old(families)[family := Family([], "", Healthy)]
    {
      n := AddVersion(family, source);
      if n.None? {
        return;
      }
      var found := SetActive(family, n.value);
      WriteAudit(Some(family), Promotion(n.value, residual));
    }
  }

  /** `after` is `vs` with exactly version `n` of `family` appended, which alone is active. */
  ghost predicate Appended(vs: seq<Version>, after: seq<Version>, family: string, n: int) {
    && Good(after)
    && n == |RowsOf(vs, family)| + 1 == |RowsOf(after, family)|
    && ActiveCount(RowsOf(after, family)) == 1
    && ActiveN(RowsOf(after, family)) == Some(n)
  }

  lemma ActivatingTheNewest(vs: seq<Version>, family: string, source: string)
    requires Good(vs)
    ensures var n := MaxN(RowsOf(vs, family)) + 1;
      var added := Added(vs, family, source);
      Good(added) && Exists(added, family, n) && n == |RowsOf(vs, family)| + 1 == |RowsOf(added, family)|
  {
    var n := MaxN(RowsOf(vs, family)) + 1;
    var added := Added(vs, family, source);
    forall f ensures GoodRows(RowsOf(added, f)) {
      AddKeeps(vs, family, source, f);
    }
    assert GoodRows(RowsOf(vs, family));
    MaxNumbered(RowsOf(vs, family));
    assert added[|vs|].family == family && added[|vs|].n == n;
    RowsOfAdded(vs, family, source, family);
  }

  lemma ActivatingAppends(vs: seq<Version>, added: seq<Version>, family: string, n: int)
    requires Good(added) && Exists(added, family, n)
    requires n == |RowsOf(vs, family)| + 1 == |RowsOf(added, family)|
    ensures Appended(vs, Activated(added, family, n), family, n)
  {
    forall f ensures GoodRows(RowsOf(Activated(added, family, n), f)) {
      ActivateKeeps(added, family, n, f);
    }
    ActivateKeeps(added, family, n, family);
    RowsOfUpdate(added, family, Demote(Fallback), family);
    RowsOfUpdate(Update(added, family, Demote(Fallback)), family, Promote(n), family);
  }

  /** After a promotion exactly the new version is active, numbered one past the old maximum. */
  lemma PromotionAppends(vs: seq<Version>, family: string, source: string)
    requires Good(vs)
    ensures var n := MaxN(RowsOf(vs, family)) + 1;
      Appended(vs, Activated(Added(vs, family, source), family, n), family, n)
  {
    ActivatingTheNewest(vs, family, source);
    ActivatingAppends(vs, Added(vs, family, source), family, MaxN(RowsOf(vs, family)) + 1);
  }

  /** The newest audit names the new version: the residual set served from now on is the promoted one. */
  lemma PromotionIsServed(
    after: seq<Version>, audit: seq<Audit>, family: string, n: int, residual: seq<string>)
    requires ActiveN(RowsOf(after, family)) == Some(n)
    ensures ActiveResidual(after, audit + [Audit(Some(family), Promotion(n, residual))], family) == residual
  {
    var all := audit + [Audit(Some(family), Promotion(n, residual))];
    assert all[|all| - 1] == Audit(Some(family), Promotion(n, residual));
  }
}
