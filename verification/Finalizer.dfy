// The life of one Ingress: its cleanup finalizer and the objects generated for it,
// with any call failing and users acting between any two calls.
module Finalizer {
  import opened Text

  datatype Kind =
    HTTPRoute | BackendTLSPolicy | ClientSettingsPolicy | ProxySettingsPolicy | AuthenticationFilter | SnippetsFilter |
    IngressTranslation

  /** An object labelled with its source Ingress. */
  datatype Generated = Generated(kind: Kind, name: string)

  /** The fields the lifecycle turns on; held says that somebody else's finalizer is present. */
  datatype IngressObject = IngressObject(deleting: bool, selected: bool, finalizer: bool, held: bool)

  /** How a reconciliation ended: an error, everything cleaned up, or a translation applied. */
  datatype Outcome = Failed | Cleaned | Translated(desired: set<Generated>)

  const ROUTING_KINDS: seq<Kind> :=
    [HTTPRoute, BackendTLSPolicy, ClientSettingsPolicy, ProxySettingsPolicy, AuthenticationFilter, SnippetsFilter]

  lemma AllKinds(kind: Kind)
    ensures kind in ROUTING_KINDS <==> kind != IngressTranslation
  {
    assert ROUTING_KINDS[0] == HTTPRoute && ROUTING_KINDS[1] == BackendTLSPolicy && ROUTING_KINDS[2] == ClientSettingsPolicy;
    assert ROUTING_KINDS[3] == ProxySettingsPolicy && ROUTING_KINDS[4] == AuthenticationFilter;
    assert ROUTING_KINDS[5] == SnippetsFilter;
  }

  /** What users and other controllers may do to the Ingress: anything but take the finalizer off, and
      the API server keeps an object as long as it has one. */
  predicate Others(before: Option<IngressObject>, after: Option<IngressObject>) {
    before.Some? && before.value.finalizer ==>
      after.Some? && after.value.finalizer && (before.value.deleting ==> after.value.deleting)
  }

  /** The Ingress without the finalizer: gone if it was only kept from deletion by that. */
  function Released(seen: Option<IngressObject>): Option<IngressObject> {
    if seen.None? || !seen.value.finalizer then seen
    else if seen.value.deleting && !seen.value.held then None
    else Some(seen.value.(finalizer := false))
  }

  /** What pruning leaves of the generated objects. */
  function Remaining(generated: set<Generated>, keep: set<Generated>, includeStatus: bool): set<Generated> {
    set g | g in generated && (g in keep || (g.kind == IngressTranslation && !includeStatus))
  }

  /** One source Ingress and what is generated for it. In a reliable run no call fails, in a quiet one nobody
      else acts; the safety properties assume neither. */
  class Source {
    const reliable: bool
    const quiet: bool
    var ingress: Option<IngressObject>
    var generated: set<Generated>

    constructor (reliable: bool, quiet: bool)
      ensures this.reliable == reliable && this.quiet == quiet && ingress == None && generated == {}
    {
      this.reliable, this.quiet := reliable, quiet;
      ingress, generated := None, {};
    }

    /** The Ingress carries the cleanup finalizer. */
    predicate Guarded()
      reads this
    {
      ingress.Some? && ingress.value.finalizer
    }

    /** Nothing generated outlives the finalizer. */
    predicate Safe()
      reads this
    {
      generated != {} ==> Guarded()
    }

    /** Between any two calls of the controller: users act, garbage collection may delete generated
        objects. Every call site states that the state is safe at that point. */
    method Interfere()
      requires Safe()
      modifies this
      ensures Safe() && Others(old(ingress), ingress) && generated <= old(generated)
      ensures quiet ==> ingress == old(ingress) && generated == old(generated)
    {
      if !quiet {
        assert Others(ingress, ingress);
        var next: Option<IngressObject> :| Others(ingress, next);
        var left: set<Generated> :| left <= generated;
        assert Others(ingress, next);
        assert Guarded() ==> next.Some?;
        ingress, generated := next, left;
      }
    }

    /** Any call may fail. */
    method Fails() returns (failed: bool)
      ensures reliable ==> !failed
    {
      failed := *;
      if reliable {
        failed := false;
      }
    }

    /** Delete every object of the listed kinds that is not kept; failures are joined, not fatal. */
    method PruneSource(keep: set<Generated>, includeStatus: bool) returns (ok: bool)
      requires Safe()
      modifies this
      ensures Safe() && generated <= old(generated) && (old(Guarded()) ==> Guarded())
      ensures ok ==> generated <= Remaining(old(generated), keep, includeStatus)
      ensures reliable ==> ok
      ensures quiet ==> ingress == old(ingress) && generated >= Remaining(old(generated), keep, includeStatus)
    {
      var kinds := ROUTING_KINDS + if includeStatus then [IngressTranslation] else [];
      ok := true;
      for i := 0 to |kinds|
        invariant Safe() && generated <= old(generated) && (old(Guarded()) ==> Guarded())
        invariant ok ==> forall j, g | 0 <= j < i && g in generated :: g.kind == kinds[j] ==> g in keep
        invariant reliable ==> ok
        invariant quiet ==> ingress == old(ingress) && generated >= Remaining(old(generated), keep, includeStatus)
      {
        AllKinds(kinds[i]);
        var deleted := DeleteListItems(kinds[i], keep);
        ok := ok && deleted;
      }
      if ok {
        forall g | g in generated && !(g.kind == IngressTranslation && !includeStatus) ensures g in keep {
          AllKinds(g.kind);
          assert g.kind in kinds;
        }
      }
    }

    method DeleteListItems(kind: Kind, keep: set<Generated>) returns (ok: bool)
      requires Safe()
      modifies this
      ensures Safe() && generated <= old(generated) && (old(Guarded()) ==> Guarded())
      ensures ok ==> forall g | g in generated :: g.kind == kind ==> g in keep
      ensures reliable ==> ok
      ensures quiet ==> ingress == old(ingress) &&
                        forall g | g in old(generated) :: g.kind != kind || g in keep ==> g in generated
    {
      var unlisted := Fails();
      if unlisted {
        return false;
      }
      var items := set g | g in generated && g.kind == kind;
      ok := true;
      while items != {}
        invariant Safe() && generated <= old(generated) && (old(Guarded()) ==> Guarded())
        invariant ok ==> forall g | g in generated :: g.kind == kind ==> g in keep || g in items
        invariant forall g | g in items :: g.kind == kind
        invariant reliable ==> ok
        invariant quiet ==> ingress == old(ingress) &&
                            forall g | g in old(generated) :: g.kind != kind || g in keep ==> g in generated
        decreases items
      {
        var item :| item in items;
        items := items - {item};
        Interfere();
        if item !in keep {
          var failed := Fails();
          if failed {
            ok := false;
          } else {
            generated := generated - {item};
          }
        }
      }
    }

    /** Server-side apply of one generated object. */
    method Apply(item: Generated) returns (ok: bool)
      requires Safe() && Guarded()
      modifies this
      ensures Safe() && Guarded() && generated <= old(generated) + {item}
      ensures reliable ==> ok
      ensures quiet ==> ingress == old(ingress) && generated >= old(generated) && (ok ==> item in generated)
    {
      Interfere();
      var failed := Fails();
      if failed {
        return false;
      }
      generated := generated + {item};
      ok := true;
    }

    /** Patching the finalizer on; it fails for an Ingress that is gone or deleting. */
    method AddFinalizer() returns (ok: bool)
      requires Safe()
      modifies this
      ensures Safe() && generated <= old(generated) && (ok ==> Guarded())
      ensures quiet && reliable && old(ingress).Some? && !old(ingress).value.deleting ==>
                ok && ingress == Some(old(ingress).value.(finalizer := true)) && generated == old(generated)
    {
      Interfere();
      if ingress.None? || (ingress.value.deleting && !ingress.value.finalizer) {
        return false;
      }
      var failed := Fails();
      if failed {
        return false;
      }
      ingress := Some(ingress.value.(finalizer := true));
      ok := true;
    }

    /** Patching the finalizer off; a deleting Ingress nobody else holds then disappears. */
    method RemoveFinalizer() returns (ok: bool)
      requires Safe() && generated == {}
      modifies this
      ensures Safe() && generated == {} && (ok ==> !Guarded())
      ensures quiet && reliable && old(Guarded()) ==> ok && ingress == Released(old(ingress))
    {
      Interfere();
      if ingress.None? {
        return false;
      }
      var failed := Fails();
      if failed {
        return false;
      }
      var patched := ingress.value.(finalizer := false);
      ingress := if patched.deleting && !patched.held then None else Some(patched);
      ok := true;
    }

    /** reconcileManagedGateway, as far as this source is concerned: other objects, and it may fail. */
    method ReconcileManagedGateway() returns (ok: bool)
      requires Safe()
      modifies this
      ensures Safe() && generated <= old(generated) && (old(Guarded()) ==> Guarded())
      ensures reliable ==> ok
      ensures quiet ==> ingress == old(ingress) && generated == old(generated)
    {
      Interfere();
      var failed := Fails();
      ok := !failed;
    }

    /** Cleaning up a source that is gone, deleting or no longer selected. */
    method CleanUp(seen: Option<IngressObject>, manageGateway: bool) returns (outcome: Outcome)
      requires Safe()
      modifies this
      ensures Safe() && generated <= old(generated)
      ensures outcome.Failed? || (outcome == Cleaned && generated == {})
      ensures quiet && reliable && seen == old(ingress) ==> outcome == Cleaned && ingress == Released(seen)
    {
      var pruned := PruneSource({}, true);
      if !pruned {
        return Failed;
      }
      if manageGateway {
        var applied := ReconcileManagedGateway();
        if !applied {
          return Failed;
        }
      }
      if seen.Some? && seen.value.finalizer {
        var removed := RemoveFinalizer();
        if !removed {
          return Failed;
        }
      }
      outcome := Cleaned;
    }

    /** One reconciliation; desired is what translating the Ingress gives, or nothing when that is fatal. */
    method Reconcile(desired: set<Generated>, status: Generated, manageGateway: bool) returns (outcome: Outcome)
      requires Safe() && status.kind == IngressTranslation && forall g | g in desired :: g.kind != IngressTranslation
      modifies this
      ensures Safe()
      ensures outcome == Cleaned ==> generated == {}
      ensures outcome.Translated? ==>
                Guarded() && forall g | g in generated :: g in desired || g.kind == IngressTranslation
      ensures quiet && reliable ==>
                var seen := old(ingress);
                if seen.None? || seen.value.deleting || !seen.value.selected
                then outcome == Cleaned && generated == {} && ingress == Released(seen)
                else
                  && outcome == Translated(desired) && ingress == Some(seen.value.(finalizer := true))
                  && generated == desired + {status} + set g | g in old(generated) && g.kind == IngressTranslation
    {
      Interfere();
      var unread := Fails();
      if unread {
        return Failed;
      }
      var seen := ingress;
      if seen.None? || seen.value.deleting || !seen.value.selected {
        outcome := CleanUp(seen, manageGateway);
        return;
      }
      if !seen.value.finalizer {
        var added := AddFinalizer();
        if !added {
          return Failed;
        }
      }
      if manageGateway {
        var applied := ReconcileManagedGateway();
        if !applied {
          return Failed;
        }
      }
      outcome := Translate(desired, status);
    }

    method Translate(desired: set<Generated>, status: Generated) returns (outcome: Outcome)
      requires Safe() && Guarded() && status.kind == IngressTranslation
      requires forall g | g in desired :: g.kind != IngressTranslation
      modifies this
      ensures Safe() && Guarded()
      ensures outcome.Failed? || outcome == Translated(desired)
      ensures outcome.Translated? ==> forall g | g in generated :: g in desired || g.kind == IngressTranslation
      ensures quiet && reliable ==>
                && outcome == Translated(desired) && ingress == old(ingress)
                && generated == desired + {status} + set g | g in old(generated) && g.kind == IngressTranslation
    {
      Interfere();
      var unlisted := Fails();
      if unlisted {
        return Failed;
      }
      var applied := ApplyAll(desired);
      if !applied {
        return Failed;
      }
      var pruned := PruneSource(desired, false);
      if !pruned {
        return Failed;
      }
      var recorded := Apply(status);
      if !recorded {
        return Failed;
      }
      Interfere();
      var unmirrored := Fails();
      if unmirrored {
        return Failed;
      }
      outcome := Translated(desired);
    }

    method ApplyAll(desired: set<Generated>) returns (ok: bool)
      requires Safe() && Guarded()
      modifies this
      ensures Safe() && Guarded() && generated <= old(generated) + desired
      ensures reliable ==> ok
      ensures quiet ==> ingress == old(ingress) && generated >= old(generated) && (ok ==> generated >= desired)
    {
      var rest := desired;
      while rest != {}
        invariant Safe() && Guarded() && rest <= desired && generated <= old(generated) + desired
        invariant quiet ==> ingress == old(ingress) && generated >= old(generated) && generated >= desired - rest
        decreases rest
      {
        var item :| item in rest;
        rest := rest - {item};
        var applied := Apply(item);
        if !applied {
          return false;
        }
      }
      ok := true;
    }
  }

  /** Any number of reconciliations, with users acting in between, each ending where a call failed or the
      process stopped: whenever the controller is between two calls, nothing it generated for the Ingress
      exists without the finalizer. */
  method Lifetime(passes: seq<(set<Generated>, Generated, bool)>) returns (source: Source)
    requires forall i | 0 <= i < |passes| ::
               passes[i].1.kind == IngressTranslation && forall g | g in passes[i].0 :: g.kind != IngressTranslation
    ensures source.Safe()
  {
    source := new Source(false, false);
    for i := 0 to |passes|
      invariant source.Safe() && fresh(source)
    {
      source.Interfere();
      var outcome := source.Reconcile(passes[i].0, passes[i].1, passes[i].2);
    }
  }
}
