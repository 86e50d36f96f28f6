/** The names of stored workflows: unique per kind, and a free one for each copy (workflow_service.py). */
module WorkflowNames {
  import opened Prelude
  import opened Text

  // ---------------------------------------------------------------- candidate names

  function Numbered(base: string, suffix: nat): string {
    base + " (" + Decimal(suffix) + ")"
  }

  /** The n-th name tried: the base itself, then "base (2)", "base (3)", ... */
  function Candidate(base: string, n: nat): string {
    if n == 0 then base else Numbered(base, n + 1)
  }

  /** What precedes the first character that `strip` keeps. */
  function Leading(s: string): (n: nat)
    ensures n <= |s| && (n < |s| ==> !IsSpace(s[n]))
  {
    if s == "" || !IsSpace(s[0]) then 0 else 1 + Leading(s[1..])
  }

  lemma {:induction false} StripDropsLeading(s: string, tail: string)
    requires tail != "" && !IsSpace(tail[0]) && !IsSpace(tail[|tail| - 1])
    ensures Strip(s + tail) == s[Leading(s)..] + tail
  {
    if s == "" {
      assert s + tail == tail;
    } else if IsSpace(s[0]) {
      assert (s + tail)[1..] == s[1..] + tail;
      StripDropsLeading(s[1..], tail);
    }
  }

  lemma {:induction false} StripShortens(s: string)
    ensures |Strip(s)| <= |s| - Leading(s)
  {
    if s != "" && IsSpace(s[0]) {
      StripShortens(s[1..]);
    } else if s != "" && IsSpace(s[|s| - 1]) {
      StripShortens(s[..|s| - 1]);
    }
  }

  lemma NumberedSplits(base: string, suffix: nat)
    ensures Numbered(base, suffix) == (base + " ") + ("(" + Decimal(suffix) + ")")
  {
    assert " (" == " " + "(";
  }

  /** The numbered candidates after `strip`: a common head, the number, and ")". */
  lemma StrippedCandidate(base: string, n: nat)
    requires n > 0
    ensures Strip(Candidate(base, n)) == (base + " ")[Leading(base + " ")..] + "(" + Decimal(n + 1) + ")"
  {
    var tail := "(" + Decimal(n + 1) + ")";
    NumberedSplits(base, n + 1);
    StripDropsLeading(base + " ", tail);
  }

  lemma {:induction false} LeadingOfPadded(base: string)
    ensures |Strip(base)| <= |base + " "| - Leading(base + " ")
  {
    StripShortens(base);
    if base != "" && IsSpace(base[0]) {
      assert (base + " ")[1..] == base[1..] + " ";
      LeadingOfPadded(base[1..]);
    }
  }

  /** No two candidates look up the same name. */
  lemma CandidatesDiffer(base: string, m: nat, n: nat)
    requires m < n
    ensures Strip(Candidate(base, m)) != Strip(Candidate(base, n))
  {
    var head := (base + " ")[Leading(base + " ")..];
    StrippedCandidate(base, n);
    if m == 0 {
      LeadingOfPadded(base);
    } else {
      StrippedCandidate(base, m);
      if Strip(Candidate(base, m)) == Strip(Candidate(base, n)) {
        var name, k := Strip(Candidate(base, m)), |head| + 1;
        assert name[k..|name| - 1] == Decimal(m + 1);
        assert name[k..|name| - 1] == Decimal(n + 1);
        DecimalInjective(m + 1, n + 1);
      }
    }
  }

  /** The first `n` of some names. */
  function FirstOf(names: nat -> string, n: nat): set<string> {
    if n == 0 then {} else FirstOf(names, n - 1) + {names(n - 1)}
  }

  lemma {:induction false} FirstOfOrigin(names: nat -> string, n: nat, name: string) returns (k: nat)
    requires name in FirstOf(names, n)
    ensures k < n && names(k) == name
  {
    if name == names(n - 1) {
      k := n - 1;
    } else {
      k := FirstOfOrigin(names, n - 1, name);
    }
  }

  lemma {:induction false} FirstOfSize(names: nat -> string, n: nat)
    requires forall i: nat, j: nat :: i < j < n ==> names(i) != names(j)
    ensures |FirstOf(names, n)| == n
  {
    if n > 0 {
      FirstOfSize(names, n - 1);
      if names(n - 1) in FirstOf(names, n - 1) {
        var k := FirstOfOrigin(names, n - 1, names(n - 1));
      }
    }
  }

  /** The names that the candidates look up. */
  function LookUps(base: string): nat -> string {
    (n: nat) => Strip(Candidate(base, n))
  }

  lemma LookedUpSize(base: string, n: nat)
    ensures |FirstOf(LookUps(base), n)| == n
  {
    forall i: nat, j: nat | i < j < n ensures LookUps(base)(i) != LookUps(base)(j) {
      CandidatesDiffer(base, i, j);
    }
    FirstOfSize(LookUps(base), n);
  }

  // ---------------------------------------------------------------- the table

  const NAME_LIMIT := 255

  datatype Row = Row(name: string, isTemplate: bool)

  datatype NameError = BadName | NameTaken | NotATemplate

  /** What the request schema makes of a name. */
  function CheckedName(name: string): Result<string, NameError> {
    if 1 <= |Strip(name)| <= NAME_LIMIT then Ok(Strip(name)) else Err(BadName)
  }

  /** A name is accepted if it has 1 to 255 characters without the white space around it, and stored without that. */
  lemma CheckedNameExactly(name: string, stored: string)
    ensures CheckedName(name) == Ok(stored) <==> stored == Strip(name) && 1 <= |stored| <= 255
    ensures CheckedName(name).Err? ==> CheckedName(name).error == BadName
  {
  }

  /** The names tried for a copy: the base itself, then the base followed by (2), (3), and so on. */
  lemma CandidatesAre(base: string, n: nat)
    ensures Candidate(base, 0) == base
    ensures n > 0 ==> Candidate(base, n) == base + " (" + Decimal(n + 1) + ")"
  {
  }

  predicate IsStored(rows: seq<Row>, name: string, isTemplate: bool) {
    Row(Strip(name), isTemplate) in rows
  }

  function NamesOf(rows: seq<Row>): set<string> {
    set r | r in rows :: r.name
  }

  predicate AllTaken(rows: seq<Row>, base: string, isTemplate: bool, n: nat) {
    forall k :: 0 <= k < n ==> IsStored(rows, Candidate(base, k), isTemplate)
  }

  /** Candidate `n` is the first free one. */
  predicate FirstFree(rows: seq<Row>, base: string, isTemplate: bool, n: nat) {
    && !IsStored(rows, Candidate(base, n), isTemplate)
    && AllTaken(rows, base, isTemplate, n)
  }

  /** The copy is called by the first free candidate, or that one is no valid name. */
  predicate IsCopyName(rows: seq<Row>, base: string, created: Result<string, NameError>, n: nat) {
    && n <= |NamesOf(rows)|
    && FirstFree(rows, base, false, n)
    && created == CheckedName(Candidate(base, n))
  }

  /** Pigeonhole: that many candidates cannot all be taken. */
  lemma TakenCandidatesAreFew(rows: seq<Row>, base: string, isTemplate: bool, n: nat)
    requires AllTaken(rows, base, isTemplate, n)
    ensures n <= |NamesOf(rows)|
  {
    LookedUpSize(base, n);
    forall name | name in FirstOf(LookUps(base), n) ensures name in NamesOf(rows) {
      var k := FirstOfOrigin(LookUps(base), n, name);
      assert IsStored(rows, Candidate(base, k), isTemplate);
      assert Row(name, isTemplate) in rows;
    }
    SubsetSize(FirstOf(LookUps(base), n), NamesOf(rows));
  }

  /** No two rows of one kind share a name. */
  ghost predicate UniqueNames(rows: seq<Row>) {
    NoDuplicates(rows)
  }

  predicate CollidesUnchecked(rows: seq<Row>, i: nat, updated: Row)
    requires i < |rows|
  {
    updated.name == rows[i].name && updated.isTemplate != rows[i].isTemplate && updated in rows
  }

  /**
   An update keeps names unique except in exactly one case: a workflow that keeps its name but changes
   kind lands on a name that the other kind already has, since the name is only checked when it changes.
   */
  lemma UpdateKeepsUniqueExactly(rows: seq<Row>, i: nat, updated: Row)
    requires UniqueNames(rows) && i < |rows|
    requires updated.name != rows[i].name ==> updated !in rows
    ensures UniqueNames(rows[i := updated]) <==> !CollidesUnchecked(rows, i, updated)
  {
    var after := rows[i := updated];
    if updated != rows[i] && updated in rows {
      var j :| 0 <= j < |rows| && rows[j] == updated;
      assert after[i] == after[j] && i != j;
    }
  }

  /** A workflow and a template called "A": turning the workflow into a template leaves two templates "A". */
  lemma KindChangeCollides()
    ensures var rows := [Row("A", false), Row("A", true)];
      UniqueNames(rows) && !UniqueNames(rows[0 := Row("A", true)])
  {
    var rows := [Row("A", false), Row("A", true)];
    UpdateKeepsUniqueExactly(rows, 0, Row("A", true));
    assert rows[1] == Row("A", true);
  }

  lemma OneMoreTaken(rows: seq<Row>, base: string, isTemplate: bool, n: nat)
    requires AllTaken(rows, base, isTemplate, n) && IsStored(rows, Candidate(base, n), isTemplate)
    ensures AllTaken(rows, base, isTemplate, n + 1) && n + 1 <= |NamesOf(rows)|
  {
    TakenCandidatesAreFew(rows, base, isTemplate, n + 1);
  }

  class WorkflowTable {
    var rows: seq<Row>

    constructor ()
      ensures rows == []
    {
      rows := [];
    }

    /** `get_by_name`: the position of the first match */
    method GetByName(name: string, isTemplate: bool) returns (found: Option<nat>)
      ensures found.Some? <==> IsStored(rows, name, isTemplate)
      ensures found.Some? ==> found.value < |rows| && rows[found.value] == Row(Strip(name), isTemplate)
    {
      for i := 0 to |rows|
        invariant Row(Strip(name), isTemplate) !in rows[..i]
      {
        if rows[i] == Row(Strip(name), isTemplate) {
          return Some(i);
        }
      }
      found := None;
    }

    /** `_next_available_name` */
    method NextAvailableName(base: string, isTemplate: bool) returns (candidate: string, lookups: nat)
      ensures lookups > 0 && candidate == Candidate(base, lookups - 1)
      ensures FirstFree(rows, base, isTemplate, lookups - 1)
      ensures lookups <= |NamesOf(rows)| + 1
    {
      candidate, lookups := base, 0;
      var suffix := 2;
      while true
        invariant candidate == Candidate(base, lookups) && suffix == lookups + 2
        invariant lookups <= |NamesOf(rows)|
        invariant AllTaken(rows, base, isTemplate, lookups)
        decreases |NamesOf(rows)| - lookups
      {
        var existing := GetByName(candidate, isTemplate);
        if existing.None? {
          lookups := lookups + 1;
          return;
        }
        OneMoreTaken(rows, base, isTemplate, lookups);
        candidate := Numbered(base, suffix);
        suffix, lookups := suffix + 1, lookups + 1;
      }
    }

    /** `create_workflow`, from the request schema on */
    method CreateWorkflow(name: string, isTemplate: bool) returns (created: Result<string, NameError>)
      modifies this
      ensures created == match CheckedName(name)
        case Err(error) => Err(error)
        case Ok(checked) => if IsStored(old(rows), checked, isTemplate) then Err(NameTaken) else Ok(checked)
      ensures rows == if created.Ok? then old(rows) + [Row(created.value, isTemplate)] else old(rows)
      ensures UniqueNames(old(rows)) ==> UniqueNames(rows)
    {
      created := CheckedName(name);
      if created.Ok? {
        var existing := GetByName(created.value, isTemplate);
        if existing.Some? {
          return Err(NameTaken);
        }
        rows := rows + [Row(created.value, isTemplate)];
      }
    }

    /** `duplicate_from_template`: the copy takes the first free candidate, unless no name may look like it */
    method DuplicateFromTemplate(template: Row, name: Option<string>) returns (created: Result<string, NameError>)
      modifies this
      ensures !template.isTemplate ==> created == Err(NotATemplate) && rows == old(rows)
      ensures template.isTemplate ==>
        var base := match name
                    case Some(given) => if given != "" then Strip(given) else Strip(template.name + " (copy)")
                    case None => Strip(template.name + " (copy)");
        exists n :: IsCopyName(old(rows), base, created, n)
      ensures rows == if created.Ok? then old(rows) + [Row(created.value, false)] else old(rows)
      ensures UniqueNames(old(rows)) ==> UniqueNames(rows)
    {
      if !template.isTemplate {
        return Err(NotATemplate);
      }
      var unique, lookups := NextAvailableName(CopyBase(template, name), false);
      created := CreateWorkflow(unique, false);
      assert IsCopyName(old(rows), CopyBase(template, name), created, lookups - 1);
    }

    /** The part of `update_workflow` that renames a workflow or turns it into a template or back. */
    method UpdateWorkflow(i: nat, name: Option<string>, isTemplate: Option<bool>) returns (error: Option<NameError>)
      requires i < |rows|
      modifies this
      ensures |rows| == |old(rows)| && forall j :: 0 <= j < |rows| && j != i ==> rows[j] == old(rows)[j]
      ensures error.Some? ==> rows == old(rows)
      ensures error.None? ==>
        && rows[i].isTemplate == isTemplate.GetOr(old(rows)[i].isTemplate)
        && match name
           case None => rows[i].name == old(rows)[i].name
           case Some(newName) => Ok(rows[i].name) == CheckedName(newName)
      ensures error == Some(BadName) <==> name.Some? && CheckedName(name.value).Err?
      ensures error == Some(NameTaken) <==>
        && name.Some?
        && CheckedName(name.value).Ok?
        && Strip(name.value) != old(rows)[i].name
        && IsStored(old(rows), name.value, isTemplate.GetOr(old(rows)[i].isTemplate))
      ensures error != Some(NotATemplate)
      ensures UniqueNames(old(rows)) && error.None? ==>
        (UniqueNames(rows) <==> !CollidesUnchecked(old(rows), i, rows[i]))
    {
      var newName := rows[i].name;
      var newKind := isTemplate.GetOr(rows[i].isTemplate);
      if name.Some? {
        var checked := CheckedName(name.value);
        if checked.Err? {
          return Some(checked.error);
        }
        newName := checked.value;
        if newName != rows[i].name {
          var existing := GetByName(newName, newKind);
          if existing.Some? && existing.value != i {
            return Some(NameTaken);
          }
        }
      }
      if UniqueNames(rows) {
        UpdateKeepsUniqueExactly(rows, i, Row(newName, newKind));
      }
      rows := rows[i := Row(newName, newKind)];
      error := None;
    }
  }

  /** `(name or f"{template.name} (copy)").strip()` */
  function CopyBase(template: Row, name: Option<string>): string {
    Strip(if name.Some? && name.value != "" then name.value else template.name + " (copy)")
  }
}
