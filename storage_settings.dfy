/**
 * StorageSettings: the priority and thing filter of a stockpile, shelf or
 * other storage. A storage may sit inside a parent storage (a shelf in a
 * storage group); it then accepts a thing only if its parent does too.
 */
module Storage {
  type DefId = nat
  type SpecialFilterId = nat

  datatype StoragePriority = Unstored | Low | Normal | Preferred | Important | Critical

  /** The thing properties a filter looks at. */
  datatype Thing = Thing(def: DefId, hitPointsFraction: real, specialTags: set<SpecialFilterId>)

  /**
   * The allowances of a ThingFilter: the defs it allows, the allowed
   * hit-point band and the special filters it disallows. ThingFilter itself
   * is not part of this model; this is the part StorageSettings uses.
   */
  datatype ThingFilter = ThingFilter(allowedDefs: set<DefId>, minHitPoints: real, maxHitPoints: real,
                                     disallowedSpecial: set<SpecialFilterId>)
  {
    /** ThingFilter.Allows(Thing). */
    predicate Allows(t: Thing)
    {
      t.def in allowedDefs && minHitPoints <= t.hitPointsFraction <= maxHitPoints
      && disallowedSpecial * t.specialTags == {}
    }

    /** ThingFilter.Allows(ThingDef). */
    predicate AllowsDef(d: DefId) { d in allowedDefs }
  }

  /** A new ThingFilter allows nothing. */
  function EmptyFilter(): (f: ThingFilter)
    ensures forall t: Thing :: !f.Allows(t)
  {
    ThingFilter({}, 0.0, 1.0, {})
  }

  /** The storage that owns a settings object (IStoreSettingsParent). */
  class SettingsOwner {
    /** What GetParentStoreSettings returns. */
    var parentSettings: StorageSettings?
    /** How many times Notify_SettingsChanged was called. */
    var settingsChangedCount: nat

    constructor (parent: StorageSettings?)
      ensures parentSettings == parent && settingsChangedCount == 0
    {
      parentSettings := parent;
      settingsChangedCount := 0;
    }
  }

  class StorageSettings {
    var owner: SettingsOwner?
    var filter: ThingFilter
    var priorityInt: StoragePriority
    ghost var Repr: set<object>

    /** The settings, their owner and the whole parent chain, without cycles. */
    ghost predicate Valid()
      reads this, Repr
      decreases Repr
    {
      this in Repr
      && (owner != null ==>
            owner in Repr
            && (owner.parentSettings != null ==>
                  var p := owner.parentSettings;
                  p in Repr && p.Repr <= Repr && this !in p.Repr && owner !in p.Repr && p.Valid()))
    }

    /** The parent settings, when the owner has any. */
    function Parent(): (p: StorageSettings?)
      reads this, Repr
      requires Valid()
      ensures p != null ==> p in Repr && p.Repr < Repr && p.Valid()
    {
      if owner == null then null else owner.parentSettings
    }

    /** The settings followed by their ancestors, innermost first. */
    ghost function Chain(): (c: seq<StorageSettings>)
      reads this, Repr
      requires Valid()
      ensures |c| > 0 && c[0] == this
      decreases Repr
    {
      var p := Parent();
      if p == null then [this] else [this] + p.Chain()
    }

    /** AllowedToAccept(Thing): the own filter, then the parent's acceptance, recursively. */
    function AllowedToAccept(t: Thing): (r: bool)
      reads this, Repr
      requires Valid()
      ensures r ==> filter.Allows(t)
      decreases Repr
    {
      if !filter.Allows(t) then false
      else
        var p := Parent();
        if p != null && !p.AllowedToAccept(t) then false
        else true
    }

    /** AllowedToAccept(ThingDef): the same chain, over defs. */
    function AllowedToAcceptDef(d: DefId): (r: bool)
      reads this, Repr
      requires Valid()
      ensures r ==> filter.AllowsDef(d)
      decreases Repr
    {
      if !filter.AllowsDef(d) then false
      else
        var p := Parent();
        if p != null && !p.AllowedToAcceptDef(d) then false
        else true
    }

    /** A thing is accepted exactly when every filter along the chain allows it. */
    lemma {:induction false} AcceptedIffEveryFilterAllows(t: Thing)
      requires Valid()
      ensures AllowedToAccept(t) <==> forall i :: 0 <= i < |Chain()| ==> Chain()[i].filter.Allows(t)
      decreases Repr
    {
      var p := Parent();
      if p != null {
        p.AcceptedIffEveryFilterAllows(t);
        assert p.AllowedToAccept(t) <==> forall i :: 0 <= i < |p.Chain()| ==> p.Chain()[i].filter.Allows(t);
        assert AllowedToAccept(t) == (filter.Allows(t) && p.AllowedToAccept(t));
        var c, pc := Chain(), p.Chain();
        assert c == [this] + pc;
        assert (forall i :: 0 <= i < |c| ==> c[i].filter.Allows(t))
          <==> filter.Allows(t) && (forall j :: 0 <= j < |pc| ==> pc[j].filter.Allows(t)) by {
          assert forall j :: 0 <= j < |pc| ==> c[j + 1] == pc[j];
        }
      } else {
        assert Chain() == [this];
      }
    }

    /** The def overload, likewise. */
    lemma {:induction false} DefAcceptedIffEveryFilterAllows(d: DefId)
      requires Valid()
      ensures AllowedToAcceptDef(d) <==> forall i :: 0 <= i < |Chain()| ==> Chain()[i].filter.AllowsDef(d)
      decreases Repr
    {
      var p := Parent();
      if p != null {
        p.DefAcceptedIffEveryFilterAllows(d);
        assert p.AllowedToAcceptDef(d) <==> forall i :: 0 <= i < |p.Chain()| ==> p.Chain()[i].filter.AllowsDef(d);
        assert AllowedToAcceptDef(d) == (filter.AllowsDef(d) && p.AllowedToAcceptDef(d));
        var c, pc := Chain(), p.Chain();
        assert c == [this] + pc;
        assert (forall i :: 0 <= i < |c| ==> c[i].filter.AllowsDef(d))
          <==> filter.AllowsDef(d) && (forall j :: 0 <= j < |pc| ==> pc[j].filter.AllowsDef(d)) by {
          assert forall j :: 0 <= j < |pc| ==> c[j + 1] == pc[j];
        }
      } else {
        assert Chain() == [this];
      }
    }

    /** A child storage never accepts more than its parent. */
    lemma ChildAcceptsNoMoreThanParent(t: Thing)
      requires Valid() && Parent() != null
      ensures AllowedToAccept(t) ==> Parent().AllowedToAccept(t)
    {
    }

    /** The parameterless constructor: no owner, a new empty filter, Normal priority. */
    constructor Plain()
      ensures Valid() && fresh(Repr)
      ensures owner == null && filter == EmptyFilter() && priorityInt == Normal
    {
      owner := null;
      filter := EmptyFilter();
      priorityInt := Normal;
      Repr := {this};
    }

    /** The constructor with an owner: priority is inherited from the owner's parent settings, if any. */
    constructor (o: SettingsOwner?)
      requires o != null && o.parentSettings != null ==> o.parentSettings.Valid() && o !in o.parentSettings.Repr
      ensures Valid()
      ensures owner == o && filter == EmptyFilter()
      ensures priorityInt == if o != null && o.parentSettings != null then o.parentSettings.priorityInt else Normal
    {
      owner := o;
      filter := EmptyFilter();
      var pri := Normal;
      if o != null {
        var p := o.parentSettings;
        if p != null {
          pri := p.priorityInt;
        }
      }
      priorityInt := pri;
      ghost var r: set<object> := {};
      if o != null {
        r := r + {o};
        if o.parentSettings != null {
          r := r + o.parentSettings.Repr;
        }
      }
      Repr := {this} + r;
    }

    /** The Priority setter. The haul-destination notifications it sends to the map are not modelled. */
    method SetPriority(value: StoragePriority)
      modifies this`priorityInt
      ensures priorityInt == value
      ensures old(Valid()) ==> Valid()
    {
      priorityInt := value;
    }

    /** CopyFrom: take over the other settings' priority and filter allowances, then notify the owner. */
    method CopyFrom(other: StorageSettings)
      requires Valid()
      modifies this, owner
      ensures Valid()
      ensures priorityInt == other.priorityInt && filter == old(other.filter)
      ensures owner == old(owner) && Repr == old(Repr)
      ensures owner != null ==>
                owner.parentSettings == old(owner.parentSettings)
                && owner.settingsChangedCount == old(owner.settingsChangedCount) + 1
    {
      var f := other.filter;
      SetPriority(other.priorityInt);
      filter := f;
      if owner != null {
        owner.settingsChangedCount := owner.settingsChangedCount + 1;
      }
    }
  }

  /** The static cache of StorageSettings. */
  class FixedSettingsCache {
    var cachedEverStorableFixedSettings: StorageSettings?

    constructor ()
      ensures cachedEverStorableFixedSettings == null
    {
      cachedEverStorableFixedSettings := null;
    }

    /** EverStorableFixedSettings: built on first use with the ever-storable filter, then shared. */
    method EverStorableFixedSettings(everStorable: ThingFilter) returns (s: StorageSettings)
      modifies this
      ensures cachedEverStorableFixedSettings == s
      ensures old(cachedEverStorableFixedSettings) != null ==> s == old(cachedEverStorableFixedSettings)
      ensures old(cachedEverStorableFixedSettings) == null ==>
        fresh(s) && s.owner == null && s.filter == everStorable && s.priorityInt == Normal
    {
      if cachedEverStorableFixedSettings == null {
        var fixed := new StorageSettings(null);
        fixed.filter := everStorable;
        cachedEverStorableFixedSettings := fixed;
      }
      s := cachedEverStorableFixedSettings;
    }

    method ResetStaticData()
      modifies this
      ensures cachedEverStorableFixedSettings == null
    {
      cachedEverStorableFixedSettings := null;
    }
  }

  /**
   * Two lookups with no reset between them return the same settings object;
   * a lookup after ResetStaticData returns a newly built one.
   */
  method MemoizedUntilReset(cache: FixedSettingsCache, f: ThingFilter) returns (a: StorageSettings, b: StorageSettings, c: StorageSettings)
    modifies cache
    ensures a == b && c != a && fresh(c)
    ensures c.filter == f && c.priorityInt == Normal && c.owner == null
    ensures cache.cachedEverStorableFixedSettings == c
  {
    a := cache.EverStorableFixedSettings(f);
    b := cache.EverStorableFixedSettings(f);
    cache.ResetStaticData();
    c := cache.EverStorableFixedSettings(f);
  }
}
