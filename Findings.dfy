/** Diagnostics as values, and the scan that walks `DescendantNodes()` and
    collects what a per-node check reports. */
module Findings {
  import opened Syntax

  /** The rule identifiers PUR001 to PUR011. */
  datatype Rule = PUR001 | PUR002 | PUR003 | PUR004 | PUR005 | PUR006 | PUR007 | PUR008 | PUR009 | PUR010 | PUR011

  datatype Severity = Error | Warning | Info

  /** The default severity of each rule: PUR010 warns, PUR011 informs, every
      other rule is an error. */
  function SeverityOf(rule: Rule): (s: Severity)
    ensures s == Warning <==> rule == PUR010
    ensures s == Info <==> rule == PUR011
  {
    match rule
    case PUR010 => Warning
    case PUR011 => Info
    case _ => Error
  }

  /** A reported diagnostic: its rule and its message arguments, in order
      (the analysed method's name first). Locations are not modelled. */
  datatype Finding = Finding(rule: Rule, arguments: seq<string>)

  /** Every finding is attributed to the named method. */
  predicate NamesMethod(findings: seq<Finding>, methodName: string) {
    forall f :: f in findings ==> f.arguments != [] && f.arguments[0] == methodName
  }

  /** What a check reports over a sequence of visits, in visiting order. */
  function FlatMap(check: Visit -> seq<Finding>, visits: seq<Visit>): seq<Finding> {
    if visits == [] then []
    else FlatMap(check, visits[..|visits| - 1]) + check(visits[|visits| - 1])
  }

  /** `foreach (var node in method.DescendantNodes()) { ... Report ... }`. */
  method Scan(visits: seq<Visit>, check: Visit -> seq<Finding>) returns (findings: seq<Finding>)
    ensures findings == FlatMap(check, visits)
  {
    findings := [];
    for i := 0 to |visits|
      invariant findings == FlatMap(check, visits[..i])
    {
      assert visits[..i + 1][..i] == visits[..i];
      findings := findings + check(visits[i]);
    }
    assert visits[..|visits|] == visits;
  }

  /** A scan reports a finding iff the check reports it at some visit. */
  lemma {:induction false} FlatMapMembership(check: Visit -> seq<Finding>, visits: seq<Visit>, f: Finding)
    ensures f in FlatMap(check, visits) <==> exists i :: 0 <= i < |visits| && f in check(visits[i])
  {
    if visits != [] {
      var init := visits[..|visits| - 1];
      FlatMapMembership(check, init, f);
      assert forall i :: 0 <= i < |init| ==> init[i] == visits[i];
    }
  }

  /** A check that attributes each of its findings to the method makes the
      whole scan do so. */
  lemma {:induction false} FlatMapNamesMethod(check: Visit -> seq<Finding>, visits: seq<Visit>, methodName: string)
    requires forall v :: NamesMethod(check(v), methodName)
    ensures NamesMethod(FlatMap(check, visits), methodName)
  {
    if visits != [] {
      FlatMapNamesMethod(check, visits[..|visits| - 1], methodName);
    }
  }

  /** Every finding is of one of the given rules. */
  predicate OfRules(findings: seq<Finding>, rules: set<Rule>) {
    forall f :: f in findings ==> f.rule in rules
  }

  /** A check that reports only the given rules makes the whole scan do so. */
  lemma {:induction false} FlatMapOfRules(check: Visit -> seq<Finding>, visits: seq<Visit>, rules: set<Rule>)
    requires forall v :: OfRules(check(v), rules)
    ensures OfRules(FlatMap(check, visits), rules)
  {
    if visits != [] {
      FlatMapOfRules(check, visits[..|visits| - 1], rules);
    }
  }

  /** What the check reports at a visited node, the scan reports. */
  lemma FlatMapReports(check: Visit -> seq<Finding>, visits: seq<Visit>, v: Visit, f: Finding)
    requires v in visits && f in check(v)
    ensures f in FlatMap(check, visits)
  {
    var i :| 0 <= i < |visits| && visits[i] == v;
    FlatMapMembership(check, visits, f);
  }

  /** A check that reports nothing at any visit makes the scan report nothing. */
  lemma {:induction false} FlatMapSilent(check: Visit -> seq<Finding>, visits: seq<Visit>)
    requires forall i :: 0 <= i < |visits| ==> check(visits[i]) == []
    ensures FlatMap(check, visits) == []
  {
    if visits != [] {
      FlatMapSilent(check, visits[..|visits| - 1]);
    }
  }
}
