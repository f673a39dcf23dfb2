/** The registry that feature handles read through (packages/core/src/app/feature-registry.service.ts). */
module FeatureRegistry {
  import opened Wrappers
  import R = RuntimeProtocol

  /** A configured feature: its identity, its class and the key it is mounted under. */
  datatype Feature = Feature(id: nat, class_: string, key: string)

  datatype InjectionFailure = NotRegistered | DefaultNotDefined | NotReady | Disposed | InvalidCapabilities

  /** The value a feature realized; only an object or a function is usable. */
  datatype Realized = Usable(value: nat) | Unusable

  type Slots = map<Feature, Option<nat>>

  function Published(slots: Slots, features: seq<Feature>, caps: Feature -> Realized, count: nat): Slots
    requires count <= |features|
    requires forall i :: 0 <= i < count ==> caps(features[i]).Usable?
  {
    if count == 0 then slots
    else Published(slots, features, caps, count - 1)[features[count - 1] := Some(caps(features[count - 1]).value)]
  }

  class FeatureRegistryService {
    var slots: Slots
    var state: R.RegistryState

    constructor ()
      ensures slots == map[] && state == R.Unready
    {
      slots, state := map[], R.Unready;
    }

    method Prepare(features: seq<Feature>)
      modifies this`slots
      ensures slots.Keys == old(slots).Keys + (set f | f in features)
      ensures forall f :: f in slots ==> slots[f] == if f in features then None else old(slots)[f]
    {
      for i := 0 to |features|
        invariant slots.Keys == old(slots).Keys + (set f | f in features[..i])
        invariant forall f :: f in slots ==> slots[f] == if f in features[..i] then None else old(slots)[f]
      {
        assert features[..i + 1] == features[..i] + [features[i]];
        slots := slots[features[i] := None];
      }
      assert features[..|features|] == features;
    }

    /** What every use of a handle goes through. */
    method GetCapabilities(feature: Feature) returns (r: Result<nat, InjectionFailure>)
      ensures r.Ok? <==> state.Active? && feature in slots && slots[feature].Some?
      ensures r.Ok? ==> slots[feature] == Some(r.value)
      ensures r.Err? ==> r.error == if state.Closed? then Disposed else NotReady
    {
      if state.Closed? { return Err(Disposed); }
      if !state.Active? || feature !in slots || slots[feature].None? { return Err(NotReady); }
      return Ok(slots[feature].value);
    }

    method Publish(feature: Feature, value: nat) returns (ok: bool)
      modifies this`slots
      ensures ok <==> feature in old(slots)
      ensures slots == if ok then old(slots)[feature := Some(value)] else old(slots)
    {
      if feature !in slots { return false; }
      slots := slots[feature := Some(value)];
      return true;
    }

    method Activate()
      modifies this`state
      ensures state == R.Active
    {
      state := R.Active;
    }

    method Dispose()
      modifies this`state
      ensures state == R.Closed
    {
      state := R.Closed;
    }

    /** publishFeatureCapabilities: stops at the first unusable value, with the ones before it published. */
    method PublishAll(features: seq<Feature>, caps: Feature -> Realized) returns (done: nat)
      requires forall f :: f in features ==> f in slots
      modifies this`slots
      ensures done <= |features|
      ensures forall i :: 0 <= i < done ==> caps(features[i]).Usable?
      ensures done < |features| ==> caps(features[done]).Unusable?
      ensures slots == Published(old(slots), features, caps, done)
      ensures slots.Keys == old(slots).Keys
    {
      done := 0;
      while done < |features|
        invariant done <= |features|
        invariant forall i :: 0 <= i < done ==> caps(features[i]).Usable?
        invariant slots == Published(old(slots), features, caps, done)
        invariant slots.Keys == old(slots).Keys
      {
        assert features[done] in features;
        if caps(features[done]).Unusable? { return; }
        var ok := Publish(features[done], caps(features[done]).value);
        done := done + 1;
      }
    }
  }

  /** After publishing, each of the first `count` features holds the value it realized. */
  lemma {:induction false} PublishedHolds(slots: Slots, features: seq<Feature>, caps: Feature -> Realized, count: nat, i: nat)
    requires i < count <= |features|
    requires forall k :: 0 <= k < count ==> caps(features[k]).Usable?
    ensures features[i] in Published(slots, features, caps, count)
    ensures Published(slots, features, caps, count)[features[i]] == Some(caps(features[i]).value)
  {
    if i < count - 1 { PublishedHolds(slots, features, caps, count - 1, i); }
  }

  datatype KeyFailure = Reserved(key: string) | Duplicate(key: string)

  /** assertUniqueFeatureKeys: rejects at the first key that is reserved or repeats an earlier one. */
  method AssertUniqueFeatureKeys(features: seq<Feature>, reserved: set<string>) returns (r: Option<KeyFailure>)
    ensures r.None? <==>
            && (forall i :: 0 <= i < |features| ==> features[i].key !in reserved)
            && (forall i, j :: 0 <= i < j < |features| ==> features[i].key != features[j].key)
    ensures r.Some? ==> exists j :: 0 <= j < |features| && features[j].key == r.value.key &&
                                    (r.value.Reserved? <==> features[j].key in reserved) &&
                                    (r.value.Duplicate? ==> exists i :: 0 <= i < j && features[i].key == features[j].key)
  {
    var seen: set<string> := {};
    for j := 0 to |features|
      invariant seen == set i | 0 <= i < j :: features[i].key
      invariant forall i :: 0 <= i < j ==> features[i].key !in reserved
      invariant forall i, k :: 0 <= i < k < j ==> features[i].key != features[k].key
    {
      if features[j].key in reserved { return Some(Reserved(features[j].key)); }
      if features[j].key in seen { return Some(Duplicate(features[j].key)); }
      seen := seen + {features[j].key};
    }
    return None;
  }
}
