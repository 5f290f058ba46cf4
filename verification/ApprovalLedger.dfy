/**
 Reconciling every managed target of the ledger over one file plan.

 Claude's two surfaces at one location are one settings file: a target is staged
 over what the targets before it have made of its file. Each may only write rules
 of its own shape, so that no rule is written by two.
 */
module ApprovalLedger {
  import opened Prelude
  import opened ApprovalItems

  /** Registered Brains (and the launcher itself), each with the approval contract it ships. */
  type Inventory = map<string, string>

  /** The items one selection wants for an inventory; None when its contracts cannot be read. */
  type Policy = (Selection, Inventory) -> Option<Items>

  /** One target's ownership receipts. */
  datatype Record = Record(owned: Owned, excluded: set<string>)

  /** The ledger's records, and the policy files there are, each under the selection that names it. */
  datatype Managed = Managed(records: map<Selection, Record>, files: map<Selection, Items>)

  /** The file of a target: Claude's surfaces share theirs. */
  function FileOf(s: Selection): Selection {
    if s.client.Claude? then s.(surface := Mcp) else s
  }

  function Content(m: Managed, file: Selection): Items {
    if file in m.files then m.files[file] else map[]
  }

  function Item(m: Managed, file: Selection, key: string): Option<Value> {
    Lookup(Content(m, file), key)
  }

  // ---------------------------------------------------------------------
  // Whose rule a rule can be
  // ---------------------------------------------------------------------

  predicate Named(text: string) {
    && text != [] && 'a' <= text[0] <= 'z'
    && forall i | 0 <= i < |text| :: 'a' <= text[i] <= 'z' || '0' <= text[i] <= '9' || text[i] == '_' || text[i] == '-'
  }

  /** The rule of a Claude permission Brain may write; empty for any other. */
  function RuleOf(key: string): string {
    if "allow:" <= key then key[6..] else if "ask:" <= key then key[4..] else ""
  }

  /** The rules a target may write: exact tools of the server, or command-first forms of the executable. */
  predicate OwnsShape(s: Selection, key: string) {
    match (s.client, s.surface)
    case (Claude, Mcp) => var rule := RuleOf(key); "mcp__brain__" <= rule && Named(rule[12..])
    case (Claude, Cli) => var rule := RuleOf(key); "Bash(" <= rule && |rule| >= 8 && rule[|rule| - 3..] == " *)"
    case (Codex, Mcp) => Named(key)
    case (Codex, Cli) => "prefix_rule(pattern=" <= key
  }

  /** Every change is of a rule the target may write; any other refuses the edit. */
  predicate Renders(s: Selection, before: Items, after: Items) {
    forall key | key in before.Keys + after.Keys && Lookup(before, key) != Lookup(after, key) :: OwnsShape(s, key)
  }

  /** A Claude target may write a rule exactly when it reads so, to allow or to ask. */
  lemma ShapesOfClaude(s: Selection, key: string)
    requires s.client.Claude?
    ensures OwnsShape(s, key) <==>
              exists kind, rule :: kind in {"allow:", "ask:"} && key == kind + rule && ClaudeRule(s.surface, rule)
  {
    hide Named;
    assert "allow:"[1] != "ask:"[1];
    if OwnsShape(s, key) {
      var kind := if "allow:" <= key then "allow:" else "ask:";
      assert key == kind + RuleOf(key);
      assert ClaudeRule(s.surface, RuleOf(key)) by {
        RuleReads(s.surface, RuleOf(key));
      }
    }
    forall kind, rule | kind in {"allow:", "ask:"} && key == kind + rule && ClaudeRule(s.surface, rule)
      ensures OwnsShape(s, key)
    {
      assert key[..|kind|] == kind && key[|kind|..] == rule;
      RuleReads(s.surface, rule);
    }
  }

  /** One tool of the server, or any command-first form. */
  ghost predicate ClaudeRule(surface: Surface, rule: string) {
    match surface
    case Mcp => exists tool :: Named(tool) && rule == "mcp__brain__" + tool
    case Cli => exists form :: rule == "Bash(" + form + " *)"
  }

  lemma RuleReads(surface: Surface, rule: string)
    ensures ClaudeRule(surface, rule) <==>
              match surface
              case Mcp => "mcp__brain__" <= rule && Named(rule[12..])
              case Cli => "Bash(" <= rule && |rule| >= 8 && rule[|rule| - 3..] == " *)"
  {
    hide Named;
    if surface.Mcp? && "mcp__brain__" <= rule {
      assert rule == "mcp__brain__" + rule[12..];
    }
    if surface.Cli? && "Bash(" <= rule && |rule| >= 8 && rule[|rule| - 3..] == " *)" {
      assert rule == "Bash(" + rule[5..|rule| - 3] + " *)";
    }
    forall tool | rule == "mcp__brain__" + tool
      ensures "mcp__brain__" <= rule && rule[12..] == tool
    {
    }
    forall form | rule == "Bash(" + form + " *)"
      ensures "Bash(" <= rule && |rule| >= 8 && rule[|rule| - 3..] == " *)"
    {
    }
  }

  /** Two targets of one file never write the same rule. */
  lemma ShapesAreApart(s: Selection, t: Selection, key: string)
    requires FileOf(s) == FileOf(t) && OwnsShape(s, key) && OwnsShape(t, key)
    ensures s == t
  {
    StartsApart(RuleOf(key));
  }

  lemma StartsApart(rule: string)
    ensures !("mcp__brain__" <= rule && "Bash(" <= rule)
  {
    assert "mcp__brain__"[0] != "Bash("[0];
    assert "mcp__brain__" <= rule ==> rule[0] == "mcp__brain__"[0];
    assert "Bash(" <= rule ==> rule[0] == "Bash("[0];
  }

  lemma SameAllowance(s: Selection, key: string, value: Value)
    ensures Allowance(FileOf(s), key, value) == Allowance(s, key, value)
  {
  }

  // ---------------------------------------------------------------------
  // Staging one target, then the ledger
  // ---------------------------------------------------------------------

  datatype Staged = Refused(unsupported: bool) | Staged(managed: Managed, conflicted: bool)

  /** What refuses a target: its surface is unsupported, its file is gone though Brain owns rules of it, its policy
      cannot be read, or a rule it would change is not of its shape. */
  lemma WhatIsRefused(policy: Policy, s: Selection, roots: Inventory, m: Managed, remove: bool, tighten: bool)
    requires s in m.records
    ensures var staged := StageTarget(policy, s, roots, m, remove, tighten);
            && (staged == Refused(true) <==> s.client.Codex? && s.surface.Cli? && !remove)
            && (!remove && (policy(s, roots).None? || (FileOf(s) !in m.files && m.records[s].owned != map[])) ==> staged.Refused?)
            && (remove && FileOf(s) !in m.files ==> staged.Staged?)
  {
    hide Reconcile, Renders, Conflicted, Tightened;
  }

  /** A file is written only where its rules change, so none is made to hold nothing. */
  lemma UnchangedIsUnwritten(policy: Policy, s: Selection, roots: Inventory, m: Managed, remove: bool, tighten: bool)
    requires StageTarget(policy, s, roots, m, remove, tighten).Staged?
    ensures var m' := StageTarget(policy, s, roots, m, remove, tighten).managed;
            Content(m', FileOf(s)) == Content(m, FileOf(s)) ==> m'.files == m.files
  {
    hide Reconcile, Renders, Conflicted, Tightened;
  }

  /** One target's turn. Removed and emptied, its record stays empty while policy is tight; otherwise it goes. */
  function StageTarget(policy: Policy, s: Selection, roots: Inventory, m: Managed, remove: bool, tighten: bool): Staged {
    if s !in m.records then Staged(m, false)
    else
      var record, file := m.records[s], FileOf(s);
      if s.client.Codex? && s.surface.Cli? && !remove then Refused(true)
      else if file !in m.files && record.owned != map[] && !remove then Refused(false)
      else if file !in m.files && remove then Staged(Retired(m, s, tighten), false)
      else if !remove && policy(s, roots).None? then Refused(false)
      else
        var observed := Content(m, file);
        var r := Turn(policy, s, roots, observed, record, remove, tighten);
        if !Renders(s, observed, r.output) then Refused(false)
        else
          var written := if r.output == observed then m else m.(files := m.files[file := r.output]);
          Staged(if remove && r.owned == map[] then Retired(written, s, tighten)
                 else written.(records := written.records[s := Record(r.owned, r.excluded)]),
                 Conflicted(r))
  }

  function Turn(policy: Policy, s: Selection, roots: Inventory, observed: Items, record: Record, remove: bool,
                tighten: bool): Reconciled
    requires remove || policy(s, roots).Some?
  {
    if remove then Removal(observed, record.owned, record.excluded)
    else
      var wanted := policy(s, roots).value;
      Reconcile(if tighten then Tightened(s, wanted, observed) else wanted, observed, record.owned, record.excluded, {}, {})
  }

  function Retired(m: Managed, s: Selection, tighten: bool): Managed {
    m.(records := if tighten then m.records[s := Record(map[], {})] else Without(m.records, s))
  }

  /** The targets in the ledger's order, each over what those before it made. The first refusal refuses them all. */
  function StageLedger(policy: Policy, ledger: seq<Selection>, roots: Inventory, m: Managed, removed: set<Selection>,
                       tighten: bool): Staged
  {
    if ledger == [] then Staged(m, false)
    else
      var n := |ledger| - 1;
      match StageLedger(policy, ledger[..n], roots, m, removed, tighten)
      case Refused(unsupported) => Refused(unsupported)
      case Staged(before, conflicted) =>
        match StageTarget(policy, ledger[n], roots, before, ledger[n] in removed, tighten)
        case Refused(unsupported) => Refused(unsupported)
        case Staged(after, clash) => Staged(after, conflicted || clash)
  }

  lemma {:induction false} RefusalStays(policy: Policy, ledger: seq<Selection>, n: nat, roots: Inventory, m: Managed,
                                        removed: set<Selection>, tighten: bool)
    requires n <= |ledger| && StageLedger(policy, ledger[..n], roots, m, removed, tighten).Refused?
    ensures StageLedger(policy, ledger, roots, m, removed, tighten) == StageLedger(policy, ledger[..n], roots, m, removed, tighten)
    decreases |ledger|
  {
    hide StageTarget;
    if n == |ledger| {
      assert ledger[..n] == ledger;
    } else {
      var shorter := ledger[..|ledger| - 1];
      assert shorter[..n] == ledger[..n];
      RefusalStays(policy, shorter, n, roots, m, removed, tighten);
    }
  }

  /** The loop over the ledger: each target is staged in turn over the plan, and any conflict refuses them all. */
  method ReconcileRecords(policy: Policy, ledger: seq<Selection>, roots: Inventory, m: Managed,
                          removed: set<Selection>, tighten: bool)
    returns (result: Staged)
    ensures result == StageLedger(policy, ledger, roots, m, removed, tighten)
  {
    hide StageTarget;
    var plan, conflicted := m, false;
    for n := 0 to |ledger|
      invariant StageLedger(policy, ledger[..n], roots, m, removed, tighten) == Staged(plan, conflicted)
    {
      assert ledger[..n + 1][..n] == ledger[..n];
      var staged := StageTarget(policy, ledger[n], roots, plan, ledger[n] in removed, tighten);
      if staged.Refused? {
        RefusalStays(policy, ledger, n + 1, roots, m, removed, tighten);
        return staged;
      }
      plan, conflicted := staged.managed, conflicted || staged.conflicted;
    }
    assert ledger[..|ledger|] == ledger;
    result := Staged(plan, conflicted);
  }

  /** Tight or not, conflicting or not: a rule changes only in the file of a target that may write it. */
  lemma {:induction false} OnlyOwnRulesChange(policy: Policy, ledger: seq<Selection>, roots: Inventory, m: Managed,
                                              removed: set<Selection>, tighten: bool, file: Selection, key: string)
    requires StageLedger(policy, ledger, roots, m, removed, tighten).Staged?
    requires Item(StageLedger(policy, ledger, roots, m, removed, tighten).managed, file, key) != Item(m, file, key)
    ensures exists s | s in ledger :: FileOf(s) == file && OwnsShape(s, key)
    decreases |ledger|
  {
    hide StageTarget, OwnsShape, Item;
    if ledger != [] {
      var n := |ledger| - 1;
      var before := StageLedger(policy, ledger[..n], roots, m, removed, tighten).managed;
      if Item(before, file, key) != Item(m, file, key) {
        OnlyOwnRulesChange(policy, ledger[..n], roots, m, removed, tighten, file, key);
      } else {
        OwnRulesOfOne(policy, ledger[n], roots, before, ledger[n] in removed, tighten, file, key);
        assert ledger[n] in ledger;
      }
    }
  }

  lemma OwnRulesOfOne(policy: Policy, s: Selection, roots: Inventory, m: Managed, remove: bool, tighten: bool,
                      file: Selection,
                      key: string)
    requires StageTarget(policy, s, roots, m, remove, tighten).Staged?
    ensures Item(StageTarget(policy, s, roots, m, remove, tighten).managed, file, key) != Item(m, file, key) ==>
              FileOf(s) == file && OwnsShape(s, key)
  {
    hide OwnsShape, Reconcile, Tightened, Conflicted, FileOf;
  }

  /** Every target is staged and no user edit conflicts. */
  predicate Admissible(policy: Policy, ledger: seq<Selection>, m: Managed, roots: Inventory, removed: set<Selection>,
                       tighten: bool) {
    var staged := StageLedger(policy, ledger, roots, m, removed, tighten);
    staged.Staged? && !staged.conflicted
  }

  /** What the targets' turns make of policy and ledger; nothing where one is refused. */
  function Reconciliation(policy: Policy, ledger: seq<Selection>, m: Managed, roots: Inventory,
                          removed: set<Selection>, tighten: bool): Managed
  {
    var staged := StageLedger(policy, ledger, roots, m, removed, tighten);
    if staged.Staged? then staged.managed else m
  }

  /** The ledger lists the records, each once. */
  ghost predicate Lists(ledger: seq<Selection>, m: Managed) {
    && (forall s :: s in ledger <==> s in m.records)
    && (forall i, j | 0 <= i < j < |ledger| :: ledger[i] != ledger[j])
  }

  // ---------------------------------------------------------------------
  // What reconciling puts in place
  // ---------------------------------------------------------------------

  /** What a target is to hold under a key, from what its file held. */
  function Wanted(policy: Policy, s: Selection, roots: Inventory, tighten: bool, key: string,
                  current: Option<Value>): Option<Value>
    requires policy(s, roots).Some?
  {
    var desired := Lookup(policy(s, roots).value, key);
    if tighten then TightenedValue(s, key, desired, current) else desired
  }

  /** The key holds what is wanted, and Brain owns it unless it held that already, unowned; what is no longer wanted
      is what it was before Brain. */
  predicate InPlace(wanted: Option<Value>, current: Option<Value>, receipt: Option<Receipt>, after: Option<Value>,
                    receipt': Option<Receipt>)
  {
    && after == (if wanted.Some? then wanted else if receipt.Some? then receipt.value.before else current)
    && receipt' == (if wanted.None? then None
                    else if receipt.Some? then Some(receipt.value.(last := wanted.value))
                    else if current.None? then Some(Receipt(None, wanted.value)) else None)
  }

  /** A rule of a target's shape once its target was reconciled, or removed: then its file holds what it held before
      Brain, and its record is gone, or emptied while policy is tight. */
  predicate Reconciles(policy: Policy, s: Selection, roots: Inventory, m0: Managed, m: Managed, remove: bool,
                       tighten: bool, key: string)
    requires s in m0.records
  {
    var file, receipt := FileOf(s), Lookup(m0.records[s].owned, key);
    if remove then
      && (if tighten then Lookup(m.records, s) == Some(Record(map[], {})) else s !in m.records)
      && Item(m, file, key) == (if receipt.Some? && file in m0.files then receipt.value.before else Item(m0, file, key))
    else
      && s in m.records && policy(s, roots).Some?
      && InPlace(Wanted(policy, s, roots, tighten, key, Item(m0, file, key)), Item(m0, file, key), receipt,
                 Item(m, file, key), Lookup(m.records[s].owned, key))
  }

  lemma TurnReconciles(policy: Policy, s: Selection, roots: Inventory, m: Managed, remove: bool, tighten: bool, key: string)
    requires s in m.records
    requires var staged := StageTarget(policy, s, roots, m, remove, tighten); staged.Staged? && !staged.conflicted
    ensures Reconciles(policy, s, roots, m, StageTarget(policy, s, roots, m, remove, tighten).managed, remove, tighten, key)
    ensures remove && FileOf(s) in m.files && key in m.records[s].owned ==>
              Item(m, FileOf(s), key) == Some(m.records[s].owned[key].last)
  {
    hide Allowance, OwnsShape, Renders, ReconcileKey, Reconcile, Conflicted, Tightened, TightenedValue;
    var observed, record := Content(m, FileOf(s)), m.records[s];
    if remove {
      if FileOf(s) in m.files {
        RemovalGivesBack(observed, record.owned, record.excluded);
      }
    } else {
      var desired := policy(s, roots).value;
      var wanted := if tighten then Tightened(s, desired, observed) else desired;
      TightenedAt(s, desired, observed, key);
      var r := Reconcile(wanted, observed, record.owned, record.excluded, {}, {});
      OneKeyInPlace(wanted, observed, record.owned, record.excluded, key);
      assert Turn(policy, s, roots, observed, record, remove, tighten) == r;
    }
  }

  /** One item of a reconciliation without conflict. */
  lemma OneKeyInPlace(wanted: Items, observed: Items, owned: Owned, excluded: set<string>, key: string)
    requires !Conflicted(Reconcile(wanted, observed, owned, excluded, {}, {}))
    ensures var r := Reconcile(wanted, observed, owned, excluded, {}, {});
            InPlace(Lookup(wanted, key), Lookup(observed, key), Lookup(owned, key), Lookup(r.output, key), Lookup(r.owned, key))
  {
    hide ReconcileKey;
    var r := Reconcile(wanted, observed, owned, excluded, {}, {});
    ReconcileAt(wanted, observed, owned, excluded, {}, {}, key);
    EveryKeySettles(Lookup(wanted, key), Lookup(observed, key), Lookup(owned, key), key in excluded, false, false);
    assert Lookup(r.findings, key) in {None, Some(UnownedMatching)};
  }

  lemma OthersTurn(policy: Policy, t: Selection, roots: Inventory, m: Managed, remove: bool, tighten: bool, s: Selection)
    requires StageTarget(policy, t, roots, m, remove, tighten).Staged? && s != t
    ensures var m' := StageTarget(policy, t, roots, m, remove, tighten).managed;
            Lookup(m'.records, s) == Lookup(m.records, s)
  {
    hide Reconcile, Renders, Conflicted, Tightened;
  }

  lemma {:induction false} OthersTurns(policy: Policy, ledger: seq<Selection>, roots: Inventory, m: Managed,
                                       removed: set<Selection>,
                                       tighten: bool, s: Selection)
    requires StageLedger(policy, ledger, roots, m, removed, tighten).Staged? && s !in ledger
    ensures Lookup(Reconciliation(policy, ledger, m, roots, removed, tighten).records, s) == Lookup(m.records, s)
    decreases |ledger|
  {
    hide StageTarget;
    if ledger != [] {
      var n := |ledger| - 1;
      OthersTurns(policy, ledger[..n], roots, m, removed, tighten, s);
      OthersTurn(policy, ledger[n], roots, Reconciliation(policy, ledger[..n], m, roots, removed, tighten), ledger[n] in removed,
                 tighten, s);
    }
  }

  /** Other targets leave the rules of a target's shape alone. */
  lemma OthersLeave(policy: Policy, ledger: seq<Selection>, roots: Inventory, m: Managed, removed: set<Selection>,
                    tighten: bool, s: Selection, key: string)
    requires StageLedger(policy, ledger, roots, m, removed, tighten).Staged? && s !in ledger && OwnsShape(s, key)
    ensures Item(Reconciliation(policy, ledger, m, roots, removed, tighten), FileOf(s), key) == Item(m, FileOf(s), key)
  {
    hide StageLedger, OwnsShape, Item;
    if Item(Reconciliation(policy, ledger, m, roots, removed, tighten), FileOf(s), key) != Item(m, FileOf(s), key) {
      OnlyOwnRulesChange(policy, ledger, roots, m, removed, tighten, FileOf(s), key);
      var t :| t in ledger && FileOf(t) == FileOf(s) && OwnsShape(t, key);
      ShapesAreApart(s, t, key);
    }
  }

  /** Reconciling the ledger installs every kept target's policy and takes every removed target's out, whatever the
      other targets of its file do before and after it. */
  lemma {:induction false} LedgerReconciles(policy: Policy, ledger: seq<Selection>, roots: Inventory, m: Managed,
                                            removed: set<Selection>, tighten: bool, s: Selection, key: string)
    requires Admissible(policy, ledger, m, roots, removed, tighten)
    requires s in ledger && s in m.records && OwnsShape(s, key)
    requires forall i, j | 0 <= i < j < |ledger| :: ledger[i] != ledger[j]
    ensures Reconciles(policy, s, roots, m, Reconciliation(policy, ledger, m, roots, removed, tighten), s in removed, tighten, key)
    decreases |ledger|
  {
    hide StageTarget, OwnsShape, InPlace, Wanted, Item;
    var n := |ledger| - 1;
    var before, t := Reconciliation(policy, ledger[..n], m, roots, removed, tighten), ledger[n];
    if t == s {
      OthersTurns(policy, ledger[..n], roots, m, removed, tighten, s);
      OthersLeave(policy, ledger[..n], roots, m, removed, tighten, s, key);
      TurnReconciles(policy, s, roots, before, s in removed, tighten, key);
      FileThere(policy, ledger[..n], roots, m, removed, tighten, FileOf(s), key);
    } else {
      LedgerReconciles(policy, ledger[..n], roots, m, removed, tighten, s, key);
      OthersTurn(policy, t, roots, before, t in removed, tighten, s);
      OwnRulesOfOne(policy, t, roots, before, t in removed, tighten, FileOf(s), key);
      if FileOf(t) == FileOf(s) && OwnsShape(t, key) {
        ShapesAreApart(s, t, key);
      }
    }
  }

  lemma {:induction false} FileThere(policy: Policy, ledger: seq<Selection>, roots: Inventory, m: Managed,
                                     removed: set<Selection>,
                                     tighten: bool, file: Selection, key: string)
    requires StageLedger(policy, ledger, roots, m, removed, tighten).Staged?
    ensures file in m.files ==> file in Reconciliation(policy, ledger, m, roots, removed, tighten).files
    ensures file !in m.files ==> Item(m, file, key) == None
    decreases |ledger|
  {
    hide StageTarget;
    if ledger != [] {
      var n := |ledger| - 1;
      FileThere(policy, ledger[..n], roots, m, removed, tighten, file, key);
      FilesGrow(policy, ledger[n], roots, Reconciliation(policy, ledger[..n], m, roots, removed, tighten), ledger[n] in removed, tighten);
    }
  }

  lemma FilesGrow(policy: Policy, t: Selection, roots: Inventory, m: Managed, remove: bool, tighten: bool)
    requires StageTarget(policy, t, roots, m, remove, tighten).Staged?
    ensures m.files.Keys <= StageTarget(policy, t, roots, m, remove, tighten).managed.files.Keys
  {
    hide Reconcile, Renders, Conflicted, Tightened;
  }

  /** Nothing stands in a target's way: it is supported, its policy can be read, its file is not gone, what it wants,
      owns and excludes is of its shape, and no rule of it clashes with what the user did. */
  predicate Clear(policy: Policy, s: Selection, roots: Inventory, m: Managed, remove: bool, tighten: bool)
    requires s in m.records
  {
    var file, record := FileOf(s), m.records[s];
    && (remove || ((s.client.Claude? || s.surface.Mcp?) && policy(s, roots).Some? && (record.owned == map[] || file in m.files)))
    && (forall key | key in record.owned.Keys + record.excluded + (if remove then {} else policy(s, roots).value.Keys) ::
          OwnsShape(s, key)
          && !Clashes(if remove then None else Wanted(policy, s, roots, tighten, key, Item(m, file, key)), Item(m, file, key),
                      Lookup(record.owned, key), key in record.excluded, false, false))
  }

  /** A target that is clear is staged without conflict, whatever others did to their own rules before. */
  lemma ClearIsStaged(policy: Policy, s: Selection, roots: Inventory, m: Managed, before: Managed, remove: bool,
                      tighten: bool)
    requires s in m.records && Clear(policy, s, roots, m, remove, tighten)
    requires s in before.records && before.records[s] == m.records[s] && (FileOf(s) in m.files ==> FileOf(s) in before.files)
    requires forall key | OwnsShape(s, key) :: Item(before, FileOf(s), key) == Item(m, FileOf(s), key)
    ensures var staged := StageTarget(policy, s, roots, before, remove, tighten); staged.Staged? && !staged.conflicted
  {
    hide Allowance, OwnsShape, ReconcileKey, Reconcile, Tightened, TightenedValue, Clashes;
    var observed, record := Content(before, FileOf(s)), m.records[s];
    var wanted := WantedItems(policy, s, roots, observed, remove, tighten);
    forall key
      ensures !Clashes(Lookup(wanted, key), Lookup(observed, key), Lookup(record.owned, key), key in record.excluded, false, false)
      ensures key in record.owned || (!remove && key in policy(s, roots).value) ==> OwnsShape(s, key)
      ensures key !in record.owned && Lookup(wanted, key) != Lookup(observed, key) && key in wanted ==> OwnsShape(s, key)
    {
      ClearKey(policy, s, roots, m, before, remove, tighten, key);
    }
    NoClashNoConflict(s, wanted, observed, record.owned, record.excluded);
    assert !remove ==> Turn(policy, s, roots, observed, record, remove, tighten)
                       == Reconcile(wanted, observed, record.owned, record.excluded, {}, {});
  }

  function WantedItems(policy: Policy, s: Selection, roots: Inventory, observed: Items, remove: bool, tighten: bool): Items
    requires remove || policy(s, roots).Some?
  {
    if remove then map[] else if tighten then Tightened(s, policy(s, roots).value, observed) else policy(s, roots).value
  }

  lemma ClearKey(policy: Policy, s: Selection, roots: Inventory, m: Managed, before: Managed, remove: bool,
                 tighten: bool, key: string)
    requires s in m.records && Clear(policy, s, roots, m, remove, tighten)
    requires forall key | OwnsShape(s, key) :: Item(before, FileOf(s), key) == Item(m, FileOf(s), key)
    ensures var observed, record := Content(before, FileOf(s)), m.records[s];
            var wanted := WantedItems(policy, s, roots, observed, remove, tighten);
            && !Clashes(Lookup(wanted, key), Lookup(observed, key), Lookup(record.owned, key), key in record.excluded, false, false)
            && (key in record.owned || (!remove && key in policy(s, roots).value) ==> OwnsShape(s, key))
            && (key !in record.owned && Lookup(wanted, key) != Lookup(observed, key) && key in wanted ==> OwnsShape(s, key))
  {
    hide Allowance, OwnsShape, Tightened;
    var observed := Content(before, FileOf(s));
    if !remove {
      TightenedAt(s, policy(s, roots).value, observed, key);
    }
  }

  lemma NoClashNoConflict(s: Selection, wanted: Items, observed: Items, owned: Owned, excluded: set<string>)
    requires forall key :: !Clashes(Lookup(wanted, key), Lookup(observed, key), Lookup(owned, key), key in excluded, false, false)
    requires forall key | key in owned :: OwnsShape(s, key)
    requires forall key | key !in owned && key in wanted && Lookup(wanted, key) != Lookup(observed, key) :: OwnsShape(s, key)
    ensures var r := Reconcile(wanted, observed, owned, excluded, {}, {}); !Conflicted(r) && Renders(s, observed, r.output)
  {
    hide ReconcileKey, OwnsShape, Clashes;
    var r := Reconcile(wanted, observed, owned, excluded, {}, {});
    forall key
      ensures Lookup(r.findings, key) in {None, Some(UnownedMatching)}
      ensures Lookup(r.output, key) != Lookup(observed, key) ==> OwnsShape(s, key)
    {
      ReconcileAt(wanted, observed, owned, excluded, {}, {}, key);
      EveryKeySettles(Lookup(wanted, key), Lookup(observed, key), Lookup(owned, key), key in excluded, false, false);
    }
    assert forall key | key in r.findings :: Lookup(r.findings, key) == Some(r.findings[key]);
  }

  /** Where every target is clear, reconciling the ledger goes through. */
  lemma {:induction false} ClearLedgerGoesThrough(policy: Policy, ledger: seq<Selection>, roots: Inventory, m: Managed,
                                                  removed: set<Selection>, tighten: bool)
    requires forall s | s in ledger :: s in m.records && Clear(policy, s, roots, m, s in removed, tighten)
    requires forall i, j | 0 <= i < j < |ledger| :: ledger[i] != ledger[j]
    ensures Admissible(policy, ledger, m, roots, removed, tighten)
    decreases |ledger|
  {
    hide StageTarget, OwnsShape, Clear, Item;
    if ledger != [] {
      var n := |ledger| - 1;
      var s := ledger[n];
      ClearLedgerGoesThrough(policy, ledger[..n], roots, m, removed, tighten);
      var before := Reconciliation(policy, ledger[..n], m, roots, removed, tighten);
      OthersTurns(policy, ledger[..n], roots, m, removed, tighten, s);
      FileThere(policy, ledger[..n], roots, m, removed, tighten, FileOf(s), "");
      forall key | OwnsShape(s, key)
        ensures Item(before, FileOf(s), key) == Item(m, FileOf(s), key)
      {
        OthersLeave(policy, ledger[..n], roots, m, removed, tighten, s, key);
      }
      ClearIsStaged(policy, s, roots, m, before, s in removed, tighten);
    }
  }

  // ---------------------------------------------------------------------
  // What a file lets through, and what it holds for review
  // ---------------------------------------------------------------------

  /** The allowances a policy grants a selection, none where it cannot be read. */
  function Permits(policy: Policy, s: Selection, roots: Inventory): set<string> {
    if policy(s, roots).Some? then AllowKeys(s, policy(s, roots).value) else {}
  }

  predicate AllowsAt(m: Managed, file: Selection, key: string) {
    Allows(file, key, Item(m, file, key))
  }

  predicate Review(m: Managed, file: Selection, key: string) {
    Item(m, file, key).Some? && !AllowsAt(m, file, key)
  }

  /** Some target of the file holds a receipt for this rule. */
  predicate OwnedByAny(m: Managed, file: Selection, key: string) {
    exists s | s in m.records :: FileOf(s) == file && key in m.records[s].owned
  }

  /** Some target of the file adopted this rule from a user who allowed it. */
  predicate Granted(m: Managed, file: Selection, key: string) {
    exists s | s in m.records :: FileOf(s) == file && key in UserGranted(s, m.records[s].owned)
  }

  /** Authority (what files allow and what users allowed before adoption) only shrinks, Brain owns no new allowance,
      no target comes or goes, and a review rule no target owns stays as it is, and unowned. */
  ghost predicate StaysTight(before: Managed, after: Managed) {
    && after.records.Keys == before.records.Keys
    && (forall file, key | AllowsAt(after, file, key) || Granted(after, file, key) ::
          AllowsAt(before, file, key) || Granted(before, file, key))
    && (forall s | s in before.records && s in after.records ::
          ManagedAllow(s, after.records[s].owned) <= ManagedAllow(s, before.records[s].owned))
    && (forall file, key | Review(before, file, key) && !OwnedByAny(before, file, key) ::
          Item(after, file, key) == Item(before, file, key) && !OwnedByAny(after, file, key))
  }

  /** The target's receipt replaces an allowance the user had by what is none. */
  predicate HoldsBack(m: Managed, s: Selection, key: string) {
    s in m.records && key in m.records[s].owned
    && Allows(s, key, m.records[s].owned[key].before) && !Allowance(s, key, m.records[s].owned[key].last)
  }

  /** The target's receipt has a review rule where the user had none. */
  predicate HoldsUp(m: Managed, s: Selection, key: string) {
    s in m.records && key in m.records[s].owned && !Allowance(s, key, m.records[s].owned[key].last)
    && (m.records[s].owned[key].before.None? || Allows(s, key, m.records[s].owned[key].before))
  }

  /** Removing these targets gives the file this allowance of the user's back ... */
  predicate GivesAllowance(m: Managed, removed: set<Selection>, file: Selection, key: string) {
    file in m.files && exists s | s in removed :: FileOf(s) == file && HoldsBack(m, s, key)
  }

  /** ... and takes this review rule of Brain's out of it. */
  predicate TakesReview(m: Managed, removed: set<Selection>, file: Selection, key: string) {
    file in m.files && exists s | s in removed :: FileOf(s) == file && HoldsUp(m, s, key)
  }

  /** A commit that keeps policy tight: besides, exactly the allowances that removed targets held back are new, and
      exactly the review rules that removed targets put where the user had none are gone. */
  ghost predicate TightCommit(before: Managed, after: Managed, removed: set<Selection>) {
    && StaysTight(before, after)
    && (forall file, key :: AllowsAt(after, file, key) && !AllowsAt(before, file, key) <==> GivesAllowance(before, removed, file, key))
    && (forall file, key :: Review(before, file, key) && !Review(after, file, key) <==> TakesReview(before, removed, file, key))
  }

  // ---------------------------------------------------------------------
  // One target's tight turn
  // ---------------------------------------------------------------------

  /** What a tight turn of a target does to its file and its receipts. */
  ghost predicate Turned(s: Selection, remove: bool, present: bool, before: Items, after: Items, owned: Owned, owned': Owned,
                         permits: set<string>)
  {
    && (forall key :: Lookup(after, key) != Lookup(before, key) ==> OwnsShape(s, key))
    && (forall key | key in owned' && key !in owned :: key !in before && OwnsShape(s, key))
    && UserGranted(s, owned') <= UserGranted(s, owned) && ManagedAllow(s, owned') <= ManagedAllow(s, owned) * permits
    && (forall key | key in before && !Allowance(s, key, before[key]) && key !in owned :: Lookup(after, key) == Lookup(before, key))
    && (!remove ==>
          && (forall key | Allows(s, key, Lookup(after, key)) :: Allows(s, key, Lookup(before, key)))
          && (forall key | key in before && !Allowance(s, key, before[key]) :: key in after && !Allowance(s, key, after[key])))
    && (remove && present ==>
          && (forall key | key in owned :: Lookup(after, key) == owned[key].before && Lookup(before, key) == Some(owned[key].last))
          && (forall key | key !in owned :: Lookup(after, key) == Lookup(before, key)))
    && (remove ==> owned' == map[]) && (remove && !present ==> after == before)
  }

  /** A turn touches its target's record and file only. */
  ghost predicate Moved(s: Selection, remove: bool, m: Managed, m': Managed, permits: set<string>)
    requires s in m.records
  {
    && s in m'.records && m'.records == m.records[s := m'.records[s]] && m.files.Keys <= m'.files.Keys
    && (forall other | other != FileOf(s) :: Lookup(m'.files, other) == Lookup(m.files, other))
    && Turned(s, remove, FileOf(s) in m.files, Content(m, FileOf(s)), Content(m', FileOf(s)),
              m.records[s].owned, m'.records[s].owned, permits)
  }

  lemma TightTurn(policy: Policy, s: Selection, roots: Inventory, m: Managed, remove: bool)
    requires s in m.records
    requires var staged := StageTarget(policy, s, roots, m, remove, true); staged.Staged? && !staged.conflicted
    ensures Moved(s, remove, m, StageTarget(policy, s, roots, m, remove, true).managed, Permits(policy, s, roots))
  {
    hide Turned, Reconcile, Conflicted, OwnsShape, Renders;
    if remove {
      TightRemoval(policy, s, roots, m);
    } else {
      TightRepair(policy, s, roots, m);
    }
  }

  lemma TightRepair(policy: Policy, s: Selection, roots: Inventory, m: Managed)
    requires s in m.records
    requires var staged := StageTarget(policy, s, roots, m, false, true); staged.Staged? && !staged.conflicted
    ensures var m', file := StageTarget(policy, s, roots, m, false, true).managed, FileOf(s);
            && s in m'.records
            && Turned(s, false, file in m.files, Content(m, file), Content(m', file), m.records[s].owned, m'.records[s].owned,
                      Permits(policy, s, roots))
  {
    hide UserGranted, ManagedAllow, Reconcile, Tightened, Conflicted, Allowance, OwnsShape;
    var file, record := FileOf(s), m.records[s];
    var observed := Content(m, file);
    TightReconcileOnlyShrinks(s, policy(s, roots).value, observed, record.owned, record.excluded);
    var r := Turn(policy, s, roots, observed, record, false, true);
    var m' := StageTarget(policy, s, roots, m, false, true).managed;
    assert Content(m', file) == r.output && m'.records[s].owned == r.owned;
    assert forall key :: Lookup(r.output, key) != Lookup(observed, key) ==> OwnsShape(s, key);
    assert forall key | Allows(s, key, Lookup(r.output, key)) :: key in AllowKeys(s, r.output);
  }

  lemma TightRemoval(policy: Policy, s: Selection, roots: Inventory, m: Managed)
    requires s in m.records
    requires var staged := StageTarget(policy, s, roots, m, true, true); staged.Staged? && !staged.conflicted
    ensures var m', file := StageTarget(policy, s, roots, m, true, true).managed, FileOf(s);
            && s in m'.records
            && Turned(s, true, file in m.files, Content(m, file), Content(m', file), m.records[s].owned, m'.records[s].owned,
                      Permits(policy, s, roots))
  {
    hide UserGranted, ManagedAllow, Reconcile, Conflicted, Allowance, OwnsShape;
    NothingManaged(s);
    if FileOf(s) in m.files {
      RemovalGivesBack(Content(m, FileOf(s)), m.records[s].owned, m.records[s].excluded);
    }
  }

  lemma NothingManaged(s: Selection)
    ensures UserGranted(s, map[]) == {} && ManagedAllow(s, map[]) == {}
  {
  }

  // ---------------------------------------------------------------------
  // The whole ledger
  // ---------------------------------------------------------------------

  /** What has become of one target that had its turn, seen from before the first turn: of its receipts, and of the
      rules of its own shape, which no other target of its file touches. */
  ghost predicate Settled(s: Selection, remove: bool, m0: Managed, m: Managed, permits: set<string>)
    requires s in m0.records && s in m.records
  {
    var file, owned, owned' := FileOf(s), m0.records[s].owned, m.records[s].owned;
    && UserGranted(s, owned') <= UserGranted(s, owned) && ManagedAllow(s, owned') <= ManagedAllow(s, owned) * permits
    && (forall key | key in owned' && key !in owned :: Item(m0, file, key).None?)
    && (forall key | OwnsShape(s, key) :: SettledRule(s, remove, file in m0.files, Item(m0, file, key), Item(m, file, key),
                                                      Lookup(owned, key), key))
    && (remove ==> owned' == map[])
    && (remove && file in m0.files ==> forall key | key in owned && owned[key].before != Some(owned[key].last) :: OwnsShape(s, key))
  }

  ghost predicate SettledRule(s: Selection, remove: bool, present: bool, before: Option<Value>, after: Option<Value>,
                              receipt: Option<Receipt>, key: string)
  {
    && (before.Some? && !Allows(s, key, before) && receipt.None? ==> after == before)
    && (!remove ==> (Allows(s, key, after) ==> Allows(s, key, before))
                    && (before.Some? && !Allows(s, key, before) ==> after.Some? && !Allows(s, key, after)))
    && (remove ==> if receipt.Some? && present then after == receipt.value.before && before == Some(receipt.value.last)
                   else after == before)
  }

  /** After the turns of `done`. */
  ghost predicate Halfway(policy: Policy, roots: Inventory, m0: Managed, m: Managed, done: set<Selection>,
                          removed: set<Selection>) {
    && m.records.Keys == m0.records.Keys && done <= m0.records.Keys && m0.files.Keys <= m.files.Keys
    && (forall s | s in m0.records && s !in done && s in m.records :: m.records[s] == m0.records[s])
    && (forall file, key :: Item(m, file, key) != Item(m0, file, key) ==> Touched(done, file, key))
    && (forall s | s in done && s in m0.records && s in m.records :: Settled(s, s in removed, m0, m, Permits(policy, s, roots)))
  }

  predicate Touched(done: set<Selection>, file: Selection, key: string) {
    exists s | s in done :: FileOf(s) == file && OwnsShape(s, key)
  }

  /** Before a target's turn the rules of its shape are as they were at first. */
  lemma Fresh(policy: Policy, roots: Inventory, m0: Managed, m: Managed, done: set<Selection>, removed: set<Selection>,
              s: Selection,
              key: string)
    requires Halfway(policy, roots, m0, m, done, removed) && s !in done && OwnsShape(s, key)
    ensures Item(m, FileOf(s), key) == Item(m0, FileOf(s), key)
  {
    hide OwnsShape, Settled;
    if Touched(done, FileOf(s), key) {
      var t :| t in done && FileOf(t) == FileOf(s) && OwnsShape(t, key);
      ShapesAreApart(s, t, key);
    }
  }

  lemma TurnTouches(s: Selection, m: Managed, m': Managed, remove: bool, permits: set<string>, file: Selection, key: string)
    requires s in m.records && Moved(s, remove, m, m', permits)
    ensures Item(m', file, key) != Item(m, file, key) ==> file == FileOf(s) && OwnsShape(s, key)
  {
    hide OwnsShape, Allowance, UserGranted, ManagedAllow;
    if file != FileOf(s) {
      assert Lookup(m'.files, file) == Lookup(m.files, file);
    }
  }

  /** A target that had its turn stays settled through the turns of others. */
  lemma StillSettled(m0: Managed, m: Managed, m': Managed, s: Selection, t: Selection, remove: bool, permits: set<string>,
                     removeT: bool, permitsT: set<string>)
    requires s in m.records && t in m0.records && t in m.records && t != s && Moved(s, remove, m, m', permits)
    requires Settled(t, removeT, m0, m, permitsT)
    ensures t in m'.records && Settled(t, removeT, m0, m', permitsT)
  {
    hide OwnsShape, Turned, UserGranted, ManagedAllow, SettledRule;
    forall key | OwnsShape(t, key)
      ensures Item(m', FileOf(t), key) == Item(m, FileOf(t), key)
    {
      TurnTouches(s, m, m', remove, permits, FileOf(t), key);
      if FileOf(s) == FileOf(t) && OwnsShape(s, key) {
        ShapesAreApart(s, t, key);
      }
    }
  }

  /** A target's turn settles it. */
  lemma NewlySettled(policy: Policy, roots: Inventory, m0: Managed, m: Managed, m': Managed, done: set<Selection>,
                     removed: set<Selection>, s: Selection)
    requires Halfway(policy, roots, m0, m, done, removed) && s in m0.records && s !in done
    requires s in m.records && Moved(s, s in removed, m, m', Permits(policy, s, roots))
    ensures Settled(s, s in removed, m0, m', Permits(policy, s, roots))
  {
    hide OwnsShape, UserGranted, ManagedAllow, Allowance;
    var file, remove := FileOf(s), s in removed;
    var owned, owned' := m0.records[s].owned, m'.records[s].owned;
    assert m.records[s] == m0.records[s];
    forall key | key in owned' && key !in owned
      ensures Item(m0, file, key).None?
    {
      Fresh(policy, roots, m0, m, done, removed, s, key);
    }
    forall key | OwnsShape(s, key)
      ensures SettledRule(s, remove, file in m0.files, Item(m0, file, key), Item(m', file, key), Lookup(owned, key), key)
    {
      Fresh(policy, roots, m0, m, done, removed, s, key);
      if file in m0.files {
        assert file in m.files;
      }
    }
  }

  lemma OneMoreTurn(policy: Policy, roots: Inventory, m0: Managed, m: Managed, done: set<Selection>,
                    removed: set<Selection>, s: Selection)
    requires Halfway(policy, roots, m0, m, done, removed) && s in m0.records && s !in done
    requires var staged := StageTarget(policy, s, roots, m, s in removed, true); staged.Staged? && !staged.conflicted
    ensures Halfway(policy, roots, m0, StageTarget(policy, s, roots, m, s in removed, true).managed, done + {s}, removed)
  {
    hide StageTarget, OwnsShape, UserGranted, ManagedAllow, Allowance, Settled, Turned, Touched, Permits;
    var remove := s in removed;
    var m' := StageTarget(policy, s, roots, m, remove, true).managed;
    TightTurn(policy, s, roots, m, remove);
    forall file, key
      ensures Item(m', file, key) != Item(m0, file, key) ==> Touched(done + {s}, file, key)
    {
      TurnTouches(s, m, m', remove, Permits(policy, s, roots), file, key);
      MoreTouched(done, s, file, key);
    }
    forall t | t in done + {s}
      ensures Settled(t, t in removed, m0, m', Permits(policy, t, roots))
    {
      if t == s {
        NewlySettled(policy, roots, m0, m, m', done, removed, s);
      } else {
        StillSettled(m0, m, m', s, t, remove, Permits(policy, s, roots), t in removed, Permits(policy, t, roots));
      }
    }
  }

  lemma MoreTouched(done: set<Selection>, s: Selection, file: Selection, key: string)
    ensures Touched(done, file, key) || (file == FileOf(s) && OwnsShape(s, key)) ==> Touched(done + {s}, file, key)
  {
    hide OwnsShape;
    if Touched(done, file, key) {
      var t :| t in done && FileOf(t) == file && OwnsShape(t, key);
      assert t in done + {s};
    }
  }

  /** The turns of a ledger in their order, seen from before the first. */
  lemma {:induction false} AllTurns(policy: Policy, ledger: seq<Selection>, roots: Inventory, m: Managed,
                                    removed: set<Selection>)
    requires Admissible(policy, ledger, m, roots, removed, true)
    requires (forall s | s in ledger :: s in m.records) && (forall i, j | 0 <= i < j < |ledger| :: ledger[i] != ledger[j])
    ensures Halfway(policy, roots, m, Reconciliation(policy, ledger, m, roots, removed, true), (set s | s in ledger), removed)
    decreases |ledger|
  {
    hide StageTarget, OwnsShape, Settled, Permits, Touched;
    if ledger != [] {
      var n := |ledger| - 1;
      AllTurns(policy, ledger[..n], roots, m, removed);
      OneMoreTurn(policy, roots, m, Reconciliation(policy, ledger[..n], m, roots, removed, true), (set s | s in ledger[..n]), removed, ledger[n]);
      assert (set s | s in ledger) == (set s | s in ledger[..n]) + {ledger[n]};
    }
  }

  /** What one rule of one file becomes when every target had its turn. */
  lemma SettledKey(policy: Policy, roots: Inventory, m0: Managed, m: Managed, removed: set<Selection>, file: Selection,
                   key: string)
    requires Halfway(policy, roots, m0, m, m0.records.Keys, removed)
    ensures Review(m0, file, key) && !OwnedByAny(m0, file, key) ==> Item(m, file, key) == Item(m0, file, key)
    ensures AllowsAt(m, file, key) && !AllowsAt(m0, file, key) ==> GivesAllowance(m0, removed, file, key)
    ensures Review(m0, file, key) && !Review(m, file, key) ==> TakesReview(m0, removed, file, key)
  {
    hide OwnsShape, UserGranted, ManagedAllow, Allowance, Permits, FileOf;
    if Item(m, file, key) != Item(m0, file, key) {
      assert Touched(m0.records.Keys, file, key);
      var s :| s in m0.records.Keys && FileOf(s) == file && OwnsShape(s, key);
      assert Settled(s, s in removed, m0, m, Permits(policy, s, roots));
      assert SettledRule(s, s in removed, file in m0.files, Item(m0, file, key), Item(m, file, key), Lookup(m0.records[s].owned, key), key);
      SameAllows(s, key, Item(m0, file, key));
      SameAllows(s, key, Item(m, file, key));
    }
  }

  /** A removed target puts its file back to what its receipt says was there before. */
  lemma RemovedKeyGoesBack(policy: Policy, roots: Inventory, m0: Managed, m: Managed, removed: set<Selection>,
                           s: Selection, key: string)
    requires Halfway(policy, roots, m0, m, m0.records.Keys, removed) && s in removed && FileOf(s) in m0.files
    requires HoldsBack(m0, s, key) || HoldsUp(m0, s, key)
    ensures HoldsBack(m0, s, key) ==> AllowsAt(m, FileOf(s), key) && !AllowsAt(m0, FileOf(s), key)
    ensures HoldsUp(m0, s, key) ==> Review(m0, FileOf(s), key) && !Review(m, FileOf(s), key)
  {
    hide OwnsShape, UserGranted, ManagedAllow, Allowance, Permits, FileOf;
    assert Settled(s, true, m0, m, Permits(policy, s, roots));
    assert SettledRule(s, true, true, Item(m0, FileOf(s), key), Item(m, FileOf(s), key), Lookup(m0.records[s].owned, key), key);
    SameAllows(s, key, Item(m0, FileOf(s), key));
    SameAllows(s, key, Item(m, FileOf(s), key));
  }

  lemma SameAllows(s: Selection, key: string, value: Option<Value>)
    ensures Allows(FileOf(s), key, value) == Allows(s, key, value)
  {
    if value.Some? {
      SameAllowance(s, key, value.value);
    }
  }

  /** No receipt is new for a rule that was there, and none tells of more that a user allowed. */
  lemma SettledOwnership(policy: Policy, roots: Inventory, m0: Managed, m: Managed, removed: set<Selection>,
                         file: Selection, key: string)
    requires Halfway(policy, roots, m0, m, m0.records.Keys, removed)
    ensures Granted(m, file, key) ==> Granted(m0, file, key)
    ensures Item(m0, file, key).Some? && OwnedByAny(m, file, key) ==> OwnedByAny(m0, file, key)
  {
    hide OwnsShape, SettledRule, Allowance, Permits, Item;
  }

  /** A tight reconciliation of the ledger is a tight commit, and fits the inventory it was made for. */
  lemma TightLedgerShrinks(policy: Policy, ledger: seq<Selection>, roots: Inventory, m: Managed, removed: set<Selection>)
    requires Lists(ledger, m) && Admissible(policy, ledger, m, roots, removed, true)
    ensures var after := Reconciliation(policy, ledger, m, roots, removed, true);
            && TightCommit(m, after, removed)
            && (forall s | s in after.records :: ManagedAllow(s, after.records[s].owned) <= Permits(policy, s, roots))
  {
    hide StageLedger, AllowsAt, UserGranted, ManagedAllow, Permits, OwnedByAny, GivesAllowance, TakesReview, Granted, Review,
      SettledRule, Item, Touched;
    var after := Reconciliation(policy, ledger, m, roots, removed, true);
    AllTurns(policy, ledger, roots, m, removed);
    assert (set s | s in ledger) == m.records.Keys;
    forall file, key
      ensures AllowsAt(after, file, key) || Granted(after, file, key) ==> AllowsAt(m, file, key) || Granted(m, file, key)
      ensures Review(m, file, key) && !OwnedByAny(m, file, key) ==>
                Item(after, file, key) == Item(m, file, key) && !OwnedByAny(after, file, key)
      ensures AllowsAt(after, file, key) && !AllowsAt(m, file, key) <==> GivesAllowance(m, removed, file, key)
      ensures Review(m, file, key) && !Review(after, file, key) <==> TakesReview(m, removed, file, key)
    {
      KeyByKey(policy, roots, m, after, removed, file, key);
    }
  }

  lemma KeyByKey(policy: Policy, roots: Inventory, m0: Managed, m: Managed, removed: set<Selection>, file: Selection,
                 key: string)
    requires Halfway(policy, roots, m0, m, m0.records.Keys, removed)
    ensures AllowsAt(m, file, key) || Granted(m, file, key) ==> AllowsAt(m0, file, key) || Granted(m0, file, key)
    ensures Review(m0, file, key) && !OwnedByAny(m0, file, key) ==> Item(m, file, key) == Item(m0, file, key) && !OwnedByAny(m, file, key)
    ensures AllowsAt(m, file, key) && !AllowsAt(m0, file, key) <==> GivesAllowance(m0, removed, file, key)
    ensures Review(m0, file, key) && !Review(m, file, key) <==> TakesReview(m0, removed, file, key)
  {
    hide Halfway, AllowsAt, UserGranted, ManagedAllow, Item, HoldsBack, HoldsUp, Granted;
    SettledKey(policy, roots, m0, m, removed, file, key);
    SettledOwnership(policy, roots, m0, m, removed, file, key);
    if GivesAllowance(m0, removed, file, key) {
      var s :| s in removed && FileOf(s) == file && HoldsBack(m0, s, key);
      RemovedKeyGoesBack(policy, roots, m0, m, removed, s, key);
      HeldBackIsGranted(m0, s, key);
    }
    if TakesReview(m0, removed, file, key) {
      var s :| s in removed && FileOf(s) == file && HoldsUp(m0, s, key);
      RemovedKeyGoesBack(policy, roots, m0, m, removed, s, key);
    }
  }

  lemma HeldBackIsGranted(m: Managed, s: Selection, key: string)
    requires HoldsBack(m, s, key)
    ensures Granted(m, FileOf(s), key)
  {
    assert key in UserGranted(s, m.records[s].owned);
  }

  lemma NothingIsTight(a: Managed)
    ensures StaysTight(a, a)
  {
  }

  lemma TightTransitively(a: Managed, b: Managed, c: Managed)
    requires StaysTight(a, b) && StaysTight(b, c)
    ensures StaysTight(a, c)
  {
    hide Item, AllowsAt, Granted, OwnedByAny, ManagedAllow;
    forall s | s in a.records && s in c.records
      ensures ManagedAllow(s, c.records[s].owned) <= ManagedAllow(s, a.records[s].owned)
    {
      assert s in b.records;
    }
    forall file, key | Review(a, file, key) && !OwnedByAny(a, file, key)
      ensures Item(c, file, key) == Item(a, file, key) && !OwnedByAny(c, file, key)
    {
      SameReview(a, b, file, key);
    }
  }

  lemma SameReview(a: Managed, b: Managed, file: Selection, key: string)
    requires Item(b, file, key) == Item(a, file, key)
    ensures Review(b, file, key) == Review(a, file, key)
  {
  }

  // ---------------------------------------------------------------------
  // What a tight removal can do
  // ---------------------------------------------------------------------

  /** It can widen: an approval of the user's, adopted and held at a prompt, is back in the file while the marker
      stands. */
  lemma TightRemovalCanWiden(policy: Policy, roots: Inventory)
    ensures var s := Selection(Codex, Mcp, "");
            var record := Record(map["k" := Receipt(Some(Mode("approve")), Mode("prompt"))], {});
            var m := Managed(map[s := record], map[s := map["k" := Mode("prompt")]]);
            && Admissible(policy, [s], m, roots, {s}, true) && GivesAllowance(m, {s}, s, "k")
            && (var after := Reconciliation(policy, [s], m, roots, {s}, true);
                !AllowsAt(m, s, "k") && AllowsAt(after, s, "k"))
  {
    hide Reconcile, Conflicted;
    var s := Selection(Codex, Mcp, "");
    var record := Record(map["k" := Receipt(Some(Mode("approve")), Mode("prompt"))], {});
    var m := Managed(map[s := record], map[s := map["k" := Mode("prompt")]]);
    RemovalCanWiden();
    OneTarget(policy, s, roots, m, {s}, true);
    assert OwnsShape(s, "k");
    var after := StageTarget(policy, s, roots, m, true, true);
    assert after.Staged? && !after.conflicted && after.managed.files[s] == map["k" := Mode("approve")];
    assert FileOf(s) == s && HoldsBack(m, s, "k");
  }

  lemma OneTarget(policy: Policy, s: Selection, roots: Inventory, m: Managed, removed: set<Selection>, tighten: bool)
    ensures StageLedger(policy, [s], roots, m, removed, tighten)
            == (match StageTarget(policy, s, roots, m, s in removed, tighten)
                case Refused(unsupported) => Refused(unsupported)
                case Staged(after, clash) => Staged(after, clash))
  {
    hide StageTarget;
    assert StageLedger(policy, [s][..0], roots, m, removed, tighten) == Staged(m, false);
  }

  /** It reaches the other surface: where Claude's two targets share a file, removing the first takes its review rule
      out of the file the second, which is not removed, is kept in. */
  lemma RemovalReachesTheOtherSurface(policy: Policy, roots: Inventory)
    requires policy(Selection(Claude, Cli, ""), roots) == Some(map[])
    ensures var mcp, cli, rule := Selection(Claude, Mcp, ""), Selection(Claude, Cli, ""), "ask:mcp__brain__w";
            var m := Managed(map[mcp := Record(map[rule := Receipt(None, Count(1))], {}), cli := Record(map[], {})],
                             map[mcp := map[rule := Count(1)]]);
            && Lists([mcp, cli], m) && Admissible(policy, [mcp, cli], m, roots, {mcp}, true)
            && FileOf(cli) == FileOf(mcp) && Review(m, FileOf(cli), rule) && rule !in m.records[cli].owned
            && Item(Reconciliation(policy, [mcp, cli], m, roots, {mcp}, true), FileOf(cli), rule) == None
  {
    hide Reconcile, Conflicted, Renders, OwnsShape, Allowance;
    var mcp, cli, rule := Selection(Claude, Mcp, ""), Selection(Claude, Cli, ""), "ask:mcp__brain__w";
    var owned := map[rule := Receipt(None, Count(1))];
    var m := Managed(map[mcp := Record(owned, {}), cli := Record(map[], {})], map[mcp := map[rule := Count(1)]]);
    var after := Managed(map[mcp := Record(map[], {}), cli := Record(map[], {})], map[mcp := map[]]);
    RuleRemoved(policy, roots);
    NothingToDo(policy, roots);
    assert [mcp, cli][..1] == [mcp];
    OneTarget(policy, mcp, roots, m, {mcp}, true);
    assert !Allowance(mcp, rule, Count(1)) by { AskIsReview(mcp, rule); }
  }

  lemma AskIsReview(s: Selection, key: string)
    requires s.client.Claude? && "ask:" <= key
    ensures !Allowance(s, key, Count(1))
  {
    assert key[1] == 's';
  }

  lemma RuleRemoved(policy: Policy, roots: Inventory)
    ensures var mcp, cli, rule := Selection(Claude, Mcp, ""), Selection(Claude, Cli, ""), "ask:mcp__brain__w";
            StageTarget(policy, mcp, roots,
                        Managed(map[mcp := Record(map[rule := Receipt(None, Count(1))], {}), cli := Record(map[], {})],
                                map[mcp := map[rule := Count(1)]]), true, true)
            == Staged(Managed(map[mcp := Record(map[], {}), cli := Record(map[], {})], map[mcp := map[]]), false)
  {
    var mcp, cli, rule := Selection(Claude, Mcp, ""), Selection(Claude, Cli, ""), "ask:mcp__brain__w";
    hide OwnsShape, Reconcile;
    RuleUnwritten(rule);
    RuleShape();
    assert rule in map[rule := Count(1)];
    assert map[mcp := map[rule := Count(1)]][mcp := map[]] == map[mcp := map[]];
  }

  lemma RuleUnwritten(rule: string)
    ensures Removal(map[rule := Count(1)], map[rule := Receipt(None, Count(1))], {}) == Reconciled(map[], map[], {}, map[])
  {
  }

  lemma RuleShape()
    ensures OwnsShape(Selection(Claude, Mcp, ""), "ask:mcp__brain__w")
  {
    assert "ask:mcp__brain__w"[4..] == "mcp__brain__w" && "mcp__brain__w"[12..] == "w";
    assert "ask:mcp__brain__w"[1] != "allow:"[1];
  }

  /** A target that wants nothing and owns nothing leaves its file as it finds it. */
  lemma NothingToDo(policy: Policy, roots: Inventory)
    requires policy(Selection(Claude, Cli, ""), roots) == Some(map[])
    ensures var mcp, cli := Selection(Claude, Mcp, ""), Selection(Claude, Cli, "");
            var m := Managed(map[mcp := Record(map[], {}), cli := Record(map[], {})], map[mcp := map[]]);
            StageTarget(policy, cli, roots, m, false, true) == Staged(m, false)
  {
    var mcp, cli := Selection(Claude, Mcp, ""), Selection(Claude, Cli, "");
    var m := Managed(map[mcp := Record(map[], {}), cli := Record(map[], {})], map[mcp := map[]]);
    var tight := Tightened(cli, map[], map[]);
    assert tight == map[];
    var r := Reconcile(map[], map[], map[], {}, {}, {});
    assert r == Reconciled(map[], map[], {}, map[]);
    assert m.records[cli := Record(map[], {})] == m.records;
  }
}
