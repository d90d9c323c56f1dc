/** Native batch Jobs: their conditions and the two loops that read them
    (controllers/execution_helpers.go, jobTerminalState and jobCompletedAt). */
module NativeJobs {
  import opened Options

  datatype ConditionType = Complete | Failed | Suspended

  datatype Condition = Condition(kind: ConditionType, holds: bool, at: int)

  datatype Outcome = Succeeded | Broken

  predicate Terminal(c: Condition) {
    c.holds && (c.kind == Complete || c.kind == Failed)
  }

  /** The outcome told by the first terminal condition, if there is one. */
  function TerminalState(conditions: seq<Condition>): Option<Outcome> {
    if conditions == [] then None
    else if Terminal(conditions[0]) then
      Some(if conditions[0].kind == Complete then Succeeded else Broken)
    else TerminalState(conditions[1..])
  }

  /** None of the first `n` conditions is a true Complete or Failed one. */
  ghost predicate NoneTrue(conditions: seq<Condition>, n: nat)
    requires n <= |conditions|
  {
    forall k | 0 <= k < n :: conditions[k].holds ==> conditions[k].kind == Suspended
  }

  /** Of the Complete and Failed conditions that are true, the first is of this kind. */
  ghost predicate FirstTrue(conditions: seq<Condition>, kind: ConditionType) {
    exists i :: 0 <= i < |conditions| && conditions[i].holds && conditions[i].kind == kind && kind != Suspended
                && NoneTrue(conditions, i)
  }

  /** The outcome is told by that condition, and there is none exactly if neither is true. */
  lemma {:induction false} TerminalStateExact(conditions: seq<Condition>)
    ensures TerminalState(conditions)
         == if FirstTrue(conditions, Complete) then Some(Succeeded)
            else if FirstTrue(conditions, Failed) then Some(Broken) else None
    ensures !(FirstTrue(conditions, Complete) && FirstTrue(conditions, Failed))
    ensures TerminalState(conditions) == None <==> NoneTrue(conditions, |conditions|)
  {
    if conditions != [] {
      var rest := conditions[1..];
      TerminalStateExact(rest);
      assert forall i | 0 <= i < |rest| :: rest[i] == conditions[i + 1];
      assert forall i | 0 < i < |conditions| :: conditions[i] == rest[i - 1];
      FirstTrueLater(conditions, Complete);
      FirstTrueLater(conditions, Failed);
    }
  }

  lemma FirstTrueLater(conditions: seq<Condition>, kind: ConditionType)
    requires conditions != []
    ensures FirstTrue(conditions, kind) <==>
              if Terminal(conditions[0]) then conditions[0].kind == kind else FirstTrue(conditions[1..], kind)
  {
    var rest := conditions[1..];
    if FirstTrue(rest, kind) && !Terminal(conditions[0]) {
      var i :| 0 <= i < |rest| && rest[i].holds && rest[i].kind == kind && kind != Suspended
               && NoneTrue(rest, i);
      forall k | 0 <= k < i + 1 ensures conditions[k].holds ==> conditions[k].kind == Suspended {
        assert k > 0 ==> conditions[k] == rest[k - 1];
      }
      assert conditions[i + 1] == rest[i];
    }
    if FirstTrue(conditions, kind) && !Terminal(conditions[0]) {
      var i :| 0 <= i < |conditions| && conditions[i].holds && conditions[i].kind == kind && kind != Suspended
               && NoneTrue(conditions, i);
      assert rest[i - 1] == conditions[i];
      forall k | 0 <= k < i - 1 ensures rest[k].holds ==> rest[k].kind == Suspended {
        assert rest[k] == conditions[k + 1];
      }
    }
  }

  method JobTerminalState(conditions: seq<Condition>) returns (state: Option<Outcome>)
    ensures state == TerminalState(conditions)
    ensures state == Some(Succeeded) <==> FirstTrue(conditions, Complete)
    ensures state == Some(Broken) <==> FirstTrue(conditions, Failed)
  {
    TerminalStateExact(conditions);
    for i := 0 to |conditions|
      invariant TerminalState(conditions) == TerminalState(conditions[i..])
    {
      var condition := conditions[i];
      if condition.kind == Complete && condition.holds {
        return Some(Succeeded);
      }
      if condition.kind == Failed && condition.holds {
        return Some(Broken);
      }
    }
    return None;
  }

  predicate Ends(c: Condition) {
    c.kind == Complete || c.kind == Failed
  }

  /** The latest transition time among the completion and failure conditions, whatever their
      status. */
  function CompletedTime(conditions: seq<Condition>): Option<int> {
    if conditions == [] then None
    else
      var before, last := CompletedTime(conditions[..|conditions| - 1]), conditions[|conditions| - 1];
      if !Ends(last) then before
      else if before.None? || last.at > before.value then Some(last.at)
      else before
  }

  /** The latest time of a Complete or Failed condition, absent exactly if there is none. */
  ghost predicate LatestEnd(conditions: seq<Condition>, latest: Option<int>) {
    match latest
    case None => forall c | c in conditions :: c.kind == Suspended
    case Some(t) =>
      && (exists c :: c in conditions && c.kind != Suspended && c.at == t)
      && (forall c | c in conditions && c.kind != Suspended :: c.at <= t)
  }

  lemma {:induction false} CompletedTimeIsLatest(conditions: seq<Condition>)
    ensures LatestEnd(conditions, CompletedTime(conditions))
  {
    if conditions != [] {
      var n := |conditions| - 1;
      CompletedTimeIsLatest(conditions[..n]);
      assert conditions == conditions[..n] + [conditions[n]];
      assert conditions[n] in conditions;
    }
  }

  method JobCompletedAt(conditions: seq<Condition>) returns (latest: Option<int>)
    ensures latest == CompletedTime(conditions)
    ensures LatestEnd(conditions, latest)
  {
    CompletedTimeIsLatest(conditions);
    latest := None;
    for i := 0 to |conditions|
      invariant latest == CompletedTime(conditions[..i])
    {
      assert conditions[..i + 1][..i] == conditions[..i];
      if conditions[i].kind != Complete && conditions[i].kind != Failed {
        continue;
      }
      if latest.None? || conditions[i].at > latest.value {
        latest := Some(conditions[i].at);
      }
    }
    assert conditions[..|conditions|] == conditions;
  }
}
