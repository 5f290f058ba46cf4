/**
 Approval items of one native client policy: what tightening keeps, and what
 three-way reconciliation does with the user's own rules.

 Items are keyed by their native identity. Every key is treated on its own, so
 each operation has a per-key definition; the methods below are the loops.
 */
module ApprovalItems {
  import opened Prelude

  datatype Client = Codex | Claude

  datatype Surface = Mcp | Cli

  /** One managed client policy; `location` is its native configuration root. */
  datatype Selection = Selection(client: Client, surface: Surface, location: string)

  /** A rule count (Claude, Codex rules) or an approval mode (Codex tools). */
  datatype Value = Count(n: nat) | Mode(name: string)

  type Items = map<string, Value>

  predicate Contains(text: string, part: string) {
    exists i | 0 <= i <= |text| :: part <= text[i..]
  }

  predicate Allowance(s: Selection, key: string, value: Value) {
    if s.client.Claude? then "allow:" <= key
    else if s.surface.Mcp? then value in {Mode("approve"), Mode("auto"), Mode("writes")}
    else Contains(key, "decision=\"allow\"") || Contains(key, "decision= \"allow\"")
  }

  predicate Allows(s: Selection, key: string, value: Option<Value>) {
    value.Some? && Allowance(s, key, value.value)
  }

  function AllowKeys(s: Selection, items: Items): set<string> {
    set key | key in items && Allowance(s, key, items[key])
  }

  // ---------------------------------------------------------------------
  // Tightening
  // ---------------------------------------------------------------------

  function TightenedValue(s: Selection, key: string, wanted: Option<Value>, current: Option<Value>): Option<Value> {
    if wanted.Some? then
      if Allowance(s, key, wanted.value) && current != wanted then current else wanted
    else if current.Some? && !Allowance(s, key, current.value) then current
    else None
  }

  function Tightened(s: Selection, desired: Items, observed: Items): Items {
    map key | key in desired.Keys + observed.Keys
              && TightenedValue(s, key, Lookup(desired, key), Lookup(observed, key)).Some?
      :: TightenedValue(s, key, Lookup(desired, key), Lookup(observed, key)).value
  }

  /** The first loop: a desired allowance survives only where it is observed already. */
  method DropNewAllowances(s: Selection, desired: Items, observed: Items) returns (result: Items)
    ensures forall key :: Lookup(result, key) ==
              if key in desired then TightenedValue(s, key, Lookup(desired, key), Lookup(observed, key)) else None
  {
    hide Allowance;
    result := desired;
    var todo := desired.Keys;
    while todo != {}
      invariant todo <= desired.Keys
      invariant forall key :: Lookup(result, key) ==
                  if key in desired && key !in todo
                  then TightenedValue(s, key, Lookup(desired, key), Lookup(observed, key))
                  else Lookup(desired, key)
      decreases |todo|
    {
      var key :| key in todo;
      todo := todo - {key};
      if Allowance(s, key, desired[key]) && Lookup(observed, key) != Some(desired[key]) {
        result := if key in observed then result[key := observed[key]] else Without(result, key);
      }
    }
  }

  /** Both loops: then every observed review rule that is still missing is kept. */
  method TighteningItems(s: Selection, desired: Items, observed: Items) returns (result: Items)
    ensures result == Tightened(s, desired, observed)
  {
    hide Allowance;
    result := DropNewAllowances(s, desired, observed);
    var rest := observed.Keys;
    while rest != {}
      invariant rest <= observed.Keys
      invariant forall key :: Lookup(result, key) ==
                  if key in desired || (key in observed && key !in rest)
                  then TightenedValue(s, key, Lookup(desired, key), Lookup(observed, key))
                  else None
      decreases |rest|
    {
      var key :| key in rest;
      rest := rest - {key};
      if !Allowance(s, key, observed[key]) && key !in result {
        result := result[key := observed[key]];
      }
    }
    forall key
      ensures Lookup(result, key) == Lookup(Tightened(s, desired, observed), key)
    {
      TightenedAt(s, desired, observed, key);
    }
    SameMaps(result, Tightened(s, desired, observed));
  }

  /** Tightening grants nothing that is not already observed, keeps every observed
      review rule a review rule, and allows only what the future policy allows. */
  lemma TighteningOnlyShrinks(s: Selection, desired: Items, observed: Items)
    ensures var tight := Tightened(s, desired, observed);
            && (forall key :: key in AllowKeys(s, tight) ==>
                  key in observed && observed[key] == tight[key] && key in AllowKeys(s, desired))
            && (forall key :: key in observed && !Allowance(s, key, observed[key]) ==>
                  key in tight && !Allowance(s, key, tight[key]))
            && (forall key :: key in desired && !Allowance(s, key, desired[key]) ==>
                  key in tight && tight[key] == desired[key])
            && (forall key :: key in AllowKeys(s, desired) && Lookup(observed, key) == Some(desired[key]) ==>
                  key in tight && tight[key] == desired[key])
  {
  }

  /** What a tightened policy holds: desired review rules; what is observed of the desired allowances; and the observed
      review rules that nothing is desired for. */
  lemma TightenedHolds(s: Selection, desired: Items, observed: Items)
    ensures var tight := Tightened(s, desired, observed);
            forall key ::
              if key in desired then
                Lookup(tight, key) == if Allowance(s, key, desired[key]) then Lookup(observed, key) else Some(desired[key])
              else if key in observed && !Allowance(s, key, observed[key]) then Lookup(tight, key) == Some(observed[key])
              else key !in tight
  {
    hide Allowance;
    forall key
      ensures Lookup(Tightened(s, desired, observed), key)
              == TightenedValue(s, key, Lookup(desired, key), Lookup(observed, key))
    {
      TightenedAt(s, desired, observed, key);
    }
  }

  lemma TighteningIsIdempotent(s: Selection, desired: Items, observed: Items)
    ensures Tightened(s, desired, Tightened(s, desired, observed)) == Tightened(s, desired, observed)
  {
    var once := Tightened(s, desired, observed);
    var twice := Tightened(s, desired, once);
    forall key
      ensures Lookup(twice, key) == Lookup(once, key)
    {
      TightenedAt(s, desired, observed, key);
      TightenedAt(s, desired, once, key);
      if s.client.Codex? && s.surface.Mcp? && key in desired && key in observed {
        assert Lookup(once, key).Some?;
      }
    }
    SameMaps(twice, once);
  }

  lemma TightenedAt(s: Selection, desired: Items, observed: Items, key: string)
    ensures Lookup(Tightened(s, desired, observed), key)
            == TightenedValue(s, key, Lookup(desired, key), Lookup(observed, key))
  {
  }

  // ---------------------------------------------------------------------
  // Three-way reconciliation
  // ---------------------------------------------------------------------

  /** Ownership evidence: the value before Brain managed the item, and the value it last wrote. */
  datatype Receipt = Receipt(before: Option<Value>, last: Value)

  type Owned = map<string, Receipt>

  datatype Status = Modified | Deleted | Excluded | UnownedMatching | UnownedConflict

  datatype Outcome = Outcome(output: Option<Value>, receipt: Option<Receipt>, excluded: bool, finding: Option<Status>)

  datatype Reconciled = Reconciled(output: Items, owned: Owned, excluded: set<string>, findings: map<string, Status>)

  datatype ReconcileError = NotDesired | RemovalCannotAdopt

  function ReconcileKey(wanted: Option<Value>, current: Option<Value>, receipt: Option<Receipt>, excluded: bool,
                        adopt: bool, restore: bool): Outcome
  {
    if wanted.None? && receipt.None? then Outcome(current, None, excluded, None)
    else if adopt && current.Some? && current == wanted then
      Outcome(current, Some(Receipt(current, wanted.value)), false, None)
    else
      var restoring := restore && current.None?;
      var evidence := if restoring then None else receipt;
      var shut := excluded && !restoring;
      if evidence.Some? && current != Some(evidence.value.last) then
        Outcome(current, evidence, true, Some(if current.None? then Deleted else Modified))
      else if evidence.Some? then
        if wanted.None? then Outcome(evidence.value.before, None, shut, None)
        else Outcome(wanted, Some(evidence.value.(last := wanted.value)), shut, None)
      else if shut then Outcome(current, None, true, Some(Excluded))
      else if current.Some? then
        Outcome(current, None, false, Some(if current == wanted then UnownedMatching else UnownedConflict))
      else if wanted.Some? then Outcome(wanted, Some(Receipt(None, wanted.value)), false, None)
      else Outcome(None, None, false, None)
  }

  function OutcomeAt(desired: Items, observed: Items, owned: Owned, excluded: set<string>,
                     adopt: set<string>, restore: set<string>, key: string): Outcome
  {
    var now := Untouched(observed, owned, excluded, key);
    ReconcileKey(Lookup(desired, key), now.output, now.receipt, now.excluded, key in adopt, key in restore)
  }

  /** The state of one key before its turn. */
  function Untouched(observed: Items, owned: Owned, excluded: set<string>, key: string): Outcome {
    Outcome(Lookup(observed, key), Lookup(owned, key), key in excluded, None)
  }

  function Reconcile(desired: Items, observed: Items, owned: Owned, excluded: set<string>,
                     adopt: set<string>, restore: set<string>): Reconciled
  {
    var keys := desired.Keys + observed.Keys + owned.Keys + excluded;
    Reconciled(
      map key | key in keys && OutcomeAt(desired, observed, owned, excluded, adopt, restore, key).output.Some?
        :: OutcomeAt(desired, observed, owned, excluded, adopt, restore, key).output.value,
      map key | key in keys && OutcomeAt(desired, observed, owned, excluded, adopt, restore, key).receipt.Some?
        :: OutcomeAt(desired, observed, owned, excluded, adopt, restore, key).receipt.value,
      set key | key in keys && OutcomeAt(desired, observed, owned, excluded, adopt, restore, key).excluded,
      map key | key in keys && OutcomeAt(desired, observed, owned, excluded, adopt, restore, key).finding.Some?
        :: OutcomeAt(desired, observed, owned, excluded, adopt, restore, key).finding.value)
  }

  /** Removal reconciles against an empty desired policy. */
  function Removal(observed: Items, owned: Owned, excluded: set<string>): Reconciled {
    Reconcile(map[], observed, owned, excluded, {}, {})
  }

  function OutcomeOf(r: Reconciled, key: string): Outcome {
    Outcome(Lookup(r.output, key), Lookup(r.owned, key), key in r.excluded, Lookup(r.findings, key))
  }

  lemma ReconcileAt(desired: Items, observed: Items, owned: Owned, excluded: set<string>,
                    adopt: set<string>, restore: set<string>, key: string)
    ensures OutcomeOf(Reconcile(desired, observed, owned, excluded, adopt, restore), key)
            == OutcomeAt(desired, observed, owned, excluded, adopt, restore, key)
  {
  }

  /** One turn of the loop: the branches for a single desired or owned key. */
  method ReconcileOne(r0: Reconciled, key: string, wanted: Option<Value>, adopt: bool, restore: bool)
    returns (r: Reconciled)
    requires OutcomeOf(r0, key).finding.None? && (wanted.Some? || OutcomeOf(r0, key).receipt.Some?)
    ensures var now := OutcomeOf(r0, key);
            OutcomeOf(r, key) == ReconcileKey(wanted, now.output, now.receipt, now.excluded, adopt, restore)
    ensures forall other :: other != key ==> OutcomeOf(r, other) == OutcomeOf(r0, other)
  {
    var current := Lookup(r0.output, key);
    r := r0;
    if adopt && current.Some? && current == wanted {
      return r.(excluded := r.excluded - {key}, owned := r.owned[key := Receipt(current, wanted.value)]);
    }
    if restore && current.None? {
      r := r.(excluded := r.excluded - {key}, owned := Without(r.owned, key));
    }
    if key in r.owned && current != Some(r.owned[key].last) {
      r := r.(findings := r.findings[key := if current.None? then Deleted else Modified],
              excluded := r.excluded + {key});
    } else if key in r.owned && wanted.None? {
      r := r.(output := if r.owned[key].before.None? then Without(r.output, key)
                        else r.output[key := r.owned[key].before.value],
              owned := Without(r.owned, key));
    } else if key in r.owned {
      r := r.(output := r.output[key := wanted.value],
              owned := r.owned[key := r.owned[key].(last := wanted.value)]);
    } else if key in r.excluded {
      r := r.(findings := r.findings[key := Excluded]);
    } else if current.Some? {
      r := r.(findings := r.findings[key := if current == wanted then UnownedMatching else UnownedConflict]);
    } else if wanted.Some? {
      r := r.(output := r.output[key := wanted.value], owned := r.owned[key := Receipt(None, wanted.value)]);
    }
  }

  /** The loop over every desired or owned key. */
  method ReconcileLoop(desired: Items, observed: Items, owned: Owned, exclusions: set<string>,
                       adopt: set<string>, restore: set<string>)
    returns (r: Reconciled)
    ensures r == Reconcile(desired, observed, owned, exclusions, adopt, restore)
  {
    hide ReconcileKey, Reconcile, OutcomeOf;
    r := Reconciled(observed, owned, exclusions, map[]);
    var todo := desired.Keys + owned.Keys;
    BeforeTheLoop(desired, observed, owned, exclusions, adopt, restore);
    while todo != {}
      invariant todo <= desired.Keys + owned.Keys
      invariant forall key :: OutcomeOf(r, key) ==
                  if key in todo then Untouched(observed, owned, exclusions, key)
                  else OutcomeAt(desired, observed, owned, exclusions, adopt, restore, key)
      decreases |todo|
    {
      var key :| key in todo;
      r := ReconcileOne(r, key, Lookup(desired, key), key in adopt, key in restore);
      todo := todo - {key};
    }
    SameOutcomes(r, desired, observed, owned, exclusions, adopt, restore);
  }

  /** The item is in the state asked for, and the user asked to adopt it. */
  predicate Adopting(wanted: Option<Value>, current: Option<Value>, adopt: bool) {
    adopt && current.Some? && current == wanted
  }

  /** Something of the user's stands in the way: an owned item edited, an exclusion, an unowned other value. */
  predicate Clashes(wanted: Option<Value>, current: Option<Value>, receipt: Option<Receipt>, excluded: bool,
                    adopt: bool, restore: bool)
  {
    && (wanted.Some? || receipt.Some?) && !Adopting(wanted, current, adopt) && !(restore && current.None?)
    && if receipt.Some? then current != Some(receipt.value.last) else excluded || (current.Some? && current != wanted)
  }

  /** What reconciliation promises of one item: where the user stands in the way it is left and reported; otherwise it
      holds what is desired and is owned, unless the user's own item matches already; and what is no longer desired
      goes back to what it was before. */
  predicate Settles(wanted: Option<Value>, current: Option<Value>, receipt: Option<Receipt>, excluded: bool,
                    adopt: bool, restore: bool, after: Outcome)
  {
    var clash := Clashes(wanted, current, receipt, excluded, adopt, restore);
    && (clash ==> after.output == current && after.receipt == receipt
                  && after.finding == Some(if receipt.Some? then if current.None? then Deleted else Modified
                                           else if excluded then Excluded else UnownedConflict))
    && (!clash ==> after.finding in {None, Some(UnownedMatching)})
    && (!clash && wanted.Some? ==>
          && after.output == wanted
          && (after.finding.Some? <==> receipt.None? && current == wanted && !adopt)
          && (after.finding.Some? <==> after.receipt.None?)
          && (after.receipt.Some? ==>
                && after.receipt.value.last == wanted.value
                && after.receipt.value.before == if Adopting(wanted, current, adopt) then current
                                                 else if receipt.Some? && !(restore && current.None?) then receipt.value.before
                                                 else None))
    && (wanted.None? && !clash ==>
          after.receipt.None? && after.finding.None? && after.output == if receipt.Some? then receipt.value.before else current)
    && (after.excluded <==> !Adopting(wanted, current, adopt) && !(restore && current.None?)
                            && (excluded || (clash && receipt.Some?)))
  }

  lemma EveryKeySettles(wanted: Option<Value>, current: Option<Value>, receipt: Option<Receipt>, excluded: bool,
                        adopt: bool, restore: bool)
    requires adopt || restore ==> wanted.Some?
    ensures Settles(wanted, current, receipt, excluded, adopt, restore,
                    ReconcileKey(wanted, current, receipt, excluded, adopt, restore))
  {
  }

  /** With nothing in the way every desired item is in place, and Brain's unless the user had it so. */
  predicate Installed(desired: Items, observed: Items, owned: Owned, r: Reconciled) {
    && (forall key | key in desired ::
          && Lookup(r.output, key) == Some(desired[key])
          && (key in r.owned || (Lookup(r.findings, key) == Some(UnownedMatching) && Lookup(observed, key) == Some(desired[key])))
          && (key !in observed && key !in owned ==> Lookup(r.owned, key) == Some(Receipt(None, desired[key]))))
    && (forall key | key in owned && key !in desired :: Lookup(r.output, key) == owned[key].before && key !in r.owned)
    && (forall key | key in observed.Keys + r.output.Keys && key !in owned && key !in desired ::
          Lookup(r.output, key) == Lookup(observed, key))
  }

  lemma SettledMeansInstalled(desired: Items, observed: Items, owned: Owned, excluded: set<string>,
                              adopt: set<string>, restore: set<string>, r: Reconciled)
    requires !Conflicted(r)
    requires forall key :: Settles(Lookup(desired, key), Lookup(observed, key), Lookup(owned, key), key in excluded,
                                   key in adopt, key in restore, OutcomeOf(r, key))
    ensures Installed(desired, observed, owned, r)
  {
    hide Settles;
    forall key
      ensures key in desired ==>
                && Lookup(r.output, key) == Some(desired[key])
                && (key in r.owned || (Lookup(r.findings, key) == Some(UnownedMatching) && Lookup(observed, key) == Some(desired[key])))
                && (key !in observed && key !in owned ==> Lookup(r.owned, key) == Some(Receipt(None, desired[key])))
      ensures key in owned && key !in desired ==> Lookup(r.output, key) == owned[key].before && key !in r.owned
      ensures key !in owned && key !in desired ==> Lookup(r.output, key) == Lookup(observed, key)
    {
      assert Lookup(r.findings, key) in {None, Some(UnownedMatching)};
      InPlaceKey(Lookup(desired, key), Lookup(observed, key), Lookup(owned, key), key in excluded, key in adopt, key in restore,
                 OutcomeOf(r, key));
    }
  }

  lemma InPlaceKey(wanted: Option<Value>, current: Option<Value>, receipt: Option<Receipt>, excluded: bool,
                   adopt: bool, restore: bool, after: Outcome)
    requires Settles(wanted, current, receipt, excluded, adopt, restore, after)
    requires after.finding in {None, Some(UnownedMatching)}
    ensures wanted.Some? ==>
              && after.output == wanted
              && (after.receipt.Some? || (after.finding == Some(UnownedMatching) && current == wanted))
              && (current.None? && receipt.None? ==> after.receipt == Some(Receipt(None, wanted.value)))
    ensures wanted.None? && receipt.Some? ==> after.output == receipt.value.before && after.receipt.None?
    ensures wanted.None? && receipt.None? ==> after.output == current
  {
  }

  /** The request checks, then the loop. */
  method ReconcileItems(desired: Items, observed: Items, owned: Owned, exclusions: set<string>,
                        adopt: set<string>, restore: set<string>, remove: bool)
    returns (result: Result<Reconciled, ReconcileError>)
    ensures result.Err? <==> !(adopt <= desired.Keys && restore <= desired.Keys) || (remove && adopt + restore != {})
    ensures result.Ok? ==>
              result.value == Reconcile(if remove then map[] else desired, observed, owned, exclusions, adopt, restore)
    ensures result.Ok? ==>
              forall key :: Settles(if remove then None else Lookup(desired, key), Lookup(observed, key), Lookup(owned, key),
                                    key in exclusions, key in adopt, key in restore, OutcomeOf(result.value, key))
    ensures result.Ok? && !Conflicted(result.value) ==>
              Installed(if remove then map[] else desired, observed, owned, result.value)
  {
    hide ReconcileKey, Reconcile, Settles, Installed, OutcomeOf;
    if !(adopt <= desired.Keys && restore <= desired.Keys) {
      return Err(NotDesired);
    }
    if remove && adopt + restore != {} {
      return Err(RemovalCannotAdopt);
    }
    var wanted := if remove then map[] else desired;
    var reconciled := ReconcileLoop(wanted, observed, owned, exclusions, adopt, restore);
    forall key
      ensures Settles(Lookup(wanted, key), Lookup(observed, key), Lookup(owned, key), key in exclusions, key in adopt,
                      key in restore, OutcomeOf(reconciled, key))
    {
      ReconcileAt(wanted, observed, owned, exclusions, adopt, restore, key);
      EveryKeySettles(Lookup(wanted, key), Lookup(observed, key), Lookup(owned, key), key in exclusions, key in adopt,
                      key in restore);
    }
    if !Conflicted(reconciled) {
      SettledMeansInstalled(wanted, observed, owned, exclusions, adopt, restore, reconciled);
    }
    result := Ok(reconciled);
  }

  lemma BeforeTheLoop(desired: Items, observed: Items, owned: Owned, excluded: set<string>,
                      adopt: set<string>, restore: set<string>)
    ensures forall key :: OutcomeOf(Reconciled(observed, owned, excluded, map[]), key) ==
              if key in desired.Keys + owned.Keys then Untouched(observed, owned, excluded, key)
              else OutcomeAt(desired, observed, owned, excluded, adopt, restore, key)
  {
  }

  lemma SameOutcomes(r: Reconciled, desired: Items, observed: Items, owned: Owned, excluded: set<string>,
                     adopt: set<string>, restore: set<string>)
    requires forall key :: OutcomeOf(r, key) == OutcomeAt(desired, observed, owned, excluded, adopt, restore, key)
    ensures r == Reconcile(desired, observed, owned, excluded, adopt, restore)
  {
    hide OutcomeAt;
    var spec := Reconcile(desired, observed, owned, excluded, adopt, restore);
    forall key
      ensures Lookup(r.output, key) == Lookup(spec.output, key)
      ensures Lookup(r.owned, key) == Lookup(spec.owned, key)
      ensures Lookup(r.findings, key) == Lookup(spec.findings, key)
      ensures key in r.excluded <==> key in spec.excluded
    {
      assert OutcomeOf(r, key) == OutcomeAt(desired, observed, owned, excluded, adopt, restore, key);
      ReconcileAt(desired, observed, owned, excluded, adopt, restore, key);
    }
    SameMaps(r.output, spec.output);
    SameMaps(r.owned, spec.owned);
    SameMaps(r.findings, spec.findings);
  }

  // ---------------------------------------------------------------------
  // Authority under reconciliation
  // ---------------------------------------------------------------------

  /** Allowances that Brain itself last wrote. */
  function ManagedAllow(s: Selection, owned: Owned): set<string> {
    set key | key in owned && Allowance(s, key, owned[key].last)
  }

  /** Adopted items that the user had allowed before Brain managed them. */
  function UserGranted(s: Selection, owned: Owned): set<string> {
    set key | key in owned && Allows(s, key, owned[key].before)
  }

  /** Findings that refuse a transition. */
  predicate Conflicted(r: Reconciled) {
    exists key | key in r.findings :: !r.findings[key].UnownedMatching?
  }

  /** What one tightened key becomes. */
  lemma TightKey(s: Selection, key: string, wanted: Option<Value>, current: Option<Value>,
                 receipt: Option<Receipt>, excluded: bool)
    ensures var o := ReconcileKey(TightenedValue(s, key, wanted, current), current, receipt, excluded, false, false);
            && (Allows(s, key, o.output) ==> Allows(s, key, current))
            && (current.Some? && !Allows(s, key, current) ==> o.output.Some? && !Allows(s, key, o.output))
            && (o.receipt.Some? && Allows(s, key, o.receipt.value.before) ==>
                  receipt.Some? && receipt.value.before == o.receipt.value.before)
            && (o.receipt.Some? && Allowance(s, key, o.receipt.value.last) && o.finding in {None, Some(UnownedMatching)} ==>
                  receipt.Some? && Allowance(s, key, receipt.value.last) && Allows(s, key, wanted))
            && (current.Some? && !Allows(s, key, current) && receipt.None? && o.finding in {None, Some(UnownedMatching)} ==>
                  o.output == current && o.receipt.None?)
            && (o.receipt.Some? && receipt.None? ==> current.None? && o.output.Some?)
  {
  }

  /** Reconciling to a tightened policy adds no allowance, drops no review rule, and
      leaves Brain owning only allowances it already owned and the future policy keeps. */
  lemma TightReconcileOnlyShrinks(s: Selection, desired: Items, observed: Items, owned: Owned, excluded: set<string>)
    ensures var r := Reconcile(Tightened(s, desired, observed), observed, owned, excluded, {}, {});
            && AllowKeys(s, r.output) <= AllowKeys(s, observed)
            && (forall key :: key in observed && !Allowance(s, key, observed[key]) ==>
                  key in r.output && !Allowance(s, key, r.output[key]))
            && UserGranted(s, r.owned) <= UserGranted(s, owned)
            && (!Conflicted(r) ==> ManagedAllow(s, r.owned) <= ManagedAllow(s, owned) * AllowKeys(s, desired))
            && (!Conflicted(r) ==> forall key :: key in observed && !Allowance(s, key, observed[key]) && key !in owned ==>
                  Lookup(r.output, key) == Lookup(observed, key) && key !in r.owned)
            && (forall key | key in r.owned && key !in owned :: key !in observed && key in r.output)
  {
    hide ReconcileKey, TightenedValue, Allowance, Reconcile, Tightened;
    var tight := Tightened(s, desired, observed);
    var r := Reconcile(tight, observed, owned, excluded, {}, {});
    forall key
      ensures key in AllowKeys(s, r.output) ==> key in AllowKeys(s, observed)
      ensures key in observed && !Allowance(s, key, observed[key]) ==>
                key in r.output && !Allowance(s, key, r.output[key])
      ensures key in UserGranted(s, r.owned) ==> key in UserGranted(s, owned)
      ensures !Conflicted(r) && key in ManagedAllow(s, r.owned) ==>
                key in ManagedAllow(s, owned) && key in AllowKeys(s, desired)
      ensures !Conflicted(r) && key in observed && !Allowance(s, key, observed[key]) && key !in owned ==>
                Lookup(r.output, key) == Lookup(observed, key) && key !in r.owned
      ensures key in r.owned && key !in owned ==> key !in observed && key in r.output
    {
      TightenedAt(s, desired, observed, key);
      ReconcileAt(tight, observed, owned, excluded, {}, {}, key);
      TightKey(s, key, Lookup(desired, key), Lookup(observed, key), Lookup(owned, key), key in excluded);
      assert Conflicted(r) || Lookup(r.findings, key) in {None, Some(UnownedMatching)};
    }
  }

  lemma RemovedKey(current: Option<Value>, receipt: Option<Receipt>, excluded: bool)
    ensures ReconcileKey(None, current, receipt, excluded, false, false) ==
            if receipt.None? then Outcome(current, None, excluded, None)
            else if current != Some(receipt.value.last)
            then Outcome(current, receipt, true, Some(if current.None? then Deleted else Modified))
            else Outcome(receipt.value.before, None, excluded, None)
  {
  }

  /** Removal hands every cleanly owned item back, so it can only add an allowance
      that the user had granted before adoption. */
  lemma RemovalReturnsOwnership(s: Selection, observed: Items, owned: Owned, excluded: set<string>)
    ensures var r := Removal(observed, owned, excluded);
            && AllowKeys(s, r.output) <= AllowKeys(s, observed) + UserGranted(s, owned)
            && UserGranted(s, r.owned) <= UserGranted(s, owned)
            && (!Conflicted(r) ==> r.owned == map[])
            && (forall key | key !in owned :: Lookup(r.output, key) == Lookup(observed, key))
  {
    hide ReconcileKey, Allowance;
    var r := Removal(observed, owned, excluded);
    forall key
      ensures Conflicted(r) || key !in r.owned
      ensures key in AllowKeys(s, r.output) ==> key in AllowKeys(s, observed) + UserGranted(s, owned)
      ensures key in UserGranted(s, r.owned) ==> key in UserGranted(s, owned)
      ensures key !in owned ==> Lookup(r.output, key) == Lookup(observed, key)
    {
      ReconcileAt(map[], observed, owned, excluded, {}, {}, key);
      RemovedKey(Lookup(observed, key), Lookup(owned, key), key in excluded);
      assert Conflicted(r) || Lookup(r.findings, key) in {None, Some(UnownedMatching)};
    }
  }

  /** What a removal without conflict does: every owned item, still as Brain last wrote it, goes back to what it
      was before; every other item stays. */
  lemma RemovalGivesBack(observed: Items, owned: Owned, excluded: set<string>)
    requires !Conflicted(Removal(observed, owned, excluded))
    ensures var r := Removal(observed, owned, excluded);
            && r.owned == map[]
            && (forall key | key in owned :: Lookup(r.output, key) == owned[key].before && Lookup(observed, key) == Some(owned[key].last))
            && (forall key | key !in owned :: Lookup(r.output, key) == Lookup(observed, key))
  {
    hide ReconcileKey;
    var r := Removal(observed, owned, excluded);
    forall key
      ensures key !in r.owned
      ensures key in owned ==> Lookup(r.output, key) == owned[key].before && Lookup(observed, key) == Some(owned[key].last)
      ensures key !in owned ==> Lookup(r.output, key) == Lookup(observed, key)
    {
      ReconcileAt(map[], observed, owned, excluded, {}, {}, key);
      RemovedKey(Lookup(observed, key), Lookup(owned, key), key in excluded);
      assert Lookup(r.findings, key) in {None, Some(UnownedMatching)};
    }
  }

  /** Exactly when removal widens: some adopted item was allowed by the user and is
      now held at review by Brain. */
  lemma RemovalWidensIff(s: Selection, observed: Items, owned: Owned, excluded: set<string>)
    requires !Conflicted(Removal(observed, owned, excluded))
    ensures AllowKeys(s, Removal(observed, owned, excluded).output) <= AllowKeys(s, observed)
            <==> UserGranted(s, owned) <= ManagedAllow(s, owned)
  {
    hide ReconcileKey, Allowance;
    var r := Removal(observed, owned, excluded);
    RemovalGivesBack(observed, owned, excluded);
    if UserGranted(s, owned) <= ManagedAllow(s, owned) {
      forall key | key in AllowKeys(s, r.output)
        ensures key in AllowKeys(s, observed)
      {
        assert key in owned ==> key in UserGranted(s, owned);
        assert key !in owned ==> Lookup(r.output, key) == Lookup(observed, key);
      }
    } else {
      var key :| key in UserGranted(s, owned) && key !in ManagedAllow(s, owned);
      assert key in AllowKeys(s, r.output) && key !in AllowKeys(s, observed);
    }
  }

  /** An approval the user had, adopted and held at a prompt, comes back as an approval. */
  lemma RemovalCanWiden()
    ensures var s := Selection(Codex, Mcp, "");
            var observed, owned := map["k" := Mode("prompt")], map["k" := Receipt(Some(Mode("approve")), Mode("prompt"))];
            var r := Removal(observed, owned, {});
            && !Conflicted(r) && r.output == map["k" := Mode("approve")]
            && AllowKeys(s, observed) == {} && AllowKeys(s, r.output) == {"k"}
  {
    var s := Selection(Codex, Mcp, "");
    var observed, owned := map["k" := Mode("prompt")], map["k" := Receipt(Some(Mode("approve")), Mode("prompt"))];
    var r := Removal(observed, owned, {});
    assert |"prompt"| == 6 && |"approve"| == 7 && |"auto"| == 4 && "prompt"[0] != "writes"[0];
    assert !Allowance(s, "k", Mode("prompt")) && Allowance(s, "k", Mode("approve"));
  }

  // ---------------------------------------------------------------------
  // Removal undoes every reconciliation
  // ---------------------------------------------------------------------

  /** `observed` and `owned` still say exactly what the user had: owned items record it,
      every other item still is it. */
  ghost predicate Traceable(original: Items, observed: Items, owned: Owned) {
    forall key :: Traced(Lookup(original, key), Lookup(observed, key), Lookup(owned, key))
  }

  datatype Request = Request(desired: Items, adopt: set<string>, restore: set<string>)

  /** Adopting an item Brain already owns records Brain's value as the user's own. */
  ghost predicate Readopts(request: Request, observed: Items, owned: Owned) {
    exists key :: key in request.adopt && key in owned && Lookup(observed, key) == Lookup(request.desired, key)
                  && owned[key].before != Lookup(observed, key)
  }

  predicate Traced(original: Option<Value>, observed: Option<Value>, receipt: Option<Receipt>) {
    if receipt.Some? then observed == Some(receipt.value.last) && receipt.value.before == original
    else observed == original
  }

  lemma TracedKey(original: Option<Value>, wanted: Option<Value>, current: Option<Value>,
                  receipt: Option<Receipt>, excluded: bool, adopt: bool, restore: bool)
    requires adopt || restore ==> wanted.Some?
    requires Traced(original, current, receipt)
    ensures var o := ReconcileKey(wanted, current, receipt, excluded, adopt, restore);
            Traced(original, o.output, o.receipt)
            <==> !(adopt && receipt.Some? && current == wanted && receipt.value.before != current)
  {
  }

  /** One reconciliation keeps the trace exactly when it re-adopts no owned item. */
  lemma ReconcileKeepsTrace(original: Items, observed: Items, owned: Owned, excluded: set<string>, request: Request)
    requires request.adopt <= request.desired.Keys && request.restore <= request.desired.Keys
    requires Traceable(original, observed, owned)
    ensures var r := Reconcile(request.desired, observed, owned, excluded, request.adopt, request.restore);
            Traceable(original, r.output, r.owned) <==> !Readopts(request, observed, owned)
  {
    hide ReconcileKey;
    var r := Reconcile(request.desired, observed, owned, excluded, request.adopt, request.restore);
    forall key
      ensures Traced(Lookup(original, key), Lookup(r.output, key), Lookup(r.owned, key))
              <==> !(key in request.adopt && key in owned && Lookup(observed, key) == Lookup(request.desired, key)
                     && owned[key].before != Lookup(observed, key))
    {
      ReconcileAt(request.desired, observed, owned, excluded, request.adopt, request.restore, key);
      assert Traced(Lookup(original, key), Lookup(observed, key), Lookup(owned, key));
      TracedKey(Lookup(original, key), Lookup(request.desired, key), Lookup(observed, key), Lookup(owned, key),
                key in excluded, key in request.adopt, key in request.restore);
    }
  }

  /** Adopted a second time, an item held at a prompt is taken for the user's own; removal leaves the prompt
      where the user had an approval. */
  lemma ReadoptionForgetsTheUser()
    ensures var original, held := map["k" := Mode("approve")], map["k" := Mode("prompt")];
            var owned := map["k" := Receipt(Some(Mode("approve")), Mode("prompt"))];
            var again := Reconcile(held, held, owned, {}, {"k"}, {});
            && Traceable(original, held, owned) && Readopts(Request(held, {"k"}, {}), held, owned)
            && Removal(again.output, again.owned, again.excluded).output == held != original
  {
    var original, held := map["k" := Mode("approve")], map["k" := Mode("prompt")];
    var owned := map["k" := Receipt(Some(Mode("approve")), Mode("prompt"))];
    var again := Reconcile(held, held, owned, {}, {"k"}, {});
    assert |"prompt"| == 6 && |"approve"| == 7;
    assert again.output == held && again.owned == map["k" := Receipt(Some(Mode("prompt")), Mode("prompt"))];
    assert again.excluded == {};
    assert "k" in {"k"} && "k" in owned && Lookup(held, "k") == Some(Mode("prompt"));
    var removed := Removal(again.output, again.owned, {}).output;
    assert removed == held;
    assert original["k"] != held["k"];
  }

  ghost predicate ValidRequests(requests: seq<Request>) {
    forall i | 0 <= i < |requests| ::
      requests[i].adopt <= requests[i].desired.Keys && requests[i].restore <= requests[i].desired.Keys
  }

  ghost function RunRequests(start: Reconciled, requests: seq<Request>): Reconciled
    decreases requests
  {
    if requests == [] then start
    else var first := requests[0];
         RunRequests(Reconcile(first.desired, start.output, start.owned, start.excluded, first.adopt, first.restore),
                     requests[1..])
  }

  ghost predicate NeverReadopts(start: Reconciled, requests: seq<Request>)
    decreases requests
  {
    requests == []
    || (var first := requests[0];
        && !Readopts(first, start.output, start.owned)
        && NeverReadopts(Reconcile(first.desired, start.output, start.owned, start.excluded,
                                   first.adopt, first.restore), requests[1..]))
  }

  /** After any run of reconciliations, removal gives the user's own policy back. */
  lemma {:induction false} RemovalUndoesEveryRun(original: Items, start: Reconciled, requests: seq<Request>)
    requires ValidRequests(requests)
    requires Traceable(original, start.output, start.owned)
    requires NeverReadopts(start, requests)
    ensures var last := RunRequests(start, requests);
            var removed := Removal(last.output, last.owned, last.excluded);
            removed.output == original && removed.owned == map[]
    decreases requests
  {
    if requests == [] {
      var removed := Removal(start.output, start.owned, start.excluded);
      forall key
        ensures Lookup(removed.output, key) == Lookup(original, key)
        ensures key !in removed.owned
      {
        ReconcileAt(map[], start.output, start.owned, start.excluded, {}, {}, key);
        assert OutcomeOf(removed, key) == OutcomeAt(map[], start.output, start.owned, start.excluded, {}, {}, key);
        assert Traced(Lookup(original, key), Lookup(start.output, key), Lookup(start.owned, key));
      }
      SameMaps(removed.output, original);
    } else {
      var first := requests[0];
      ReconcileKeepsTrace(original, start.output, start.owned, start.excluded, first);
      RemovalUndoesEveryRun(original, Reconcile(first.desired, start.output, start.owned, start.excluded,
                                                first.adopt, first.restore), requests[1..]);
    }
  }
}
