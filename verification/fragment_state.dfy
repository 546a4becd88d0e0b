/**
 * The `fragments` and `savedStates` maps of CarouselFragmentStateAdapter.kt,
 * saved under `f#`/`s#` keys and restored from them. Fragments and their saved
 * states are opaque handles; what the fragment manager does with them is
 * not modelled.
 */
module FragmentState {
  import opened Wrappers
  import opened Kotlin
  import opened FragmentKeys

  /** A fragment handle and whether the fragment manager holds it. */
  datatype Fragment = Fragment(handle: int, isAdded: bool)

  /** What a saved bundle holds under a key: a fragment reference or a fragment's saved state. */
  datatype BundleValue = FragmentValue(handle: int) | StateValue(state: int)

  /** `fragments` and `savedStates`, keyed by item id. */
  datatype AdapterMaps = AdapterMaps(fragments: map<int, Fragment>, savedStates: map<int, int>)

  predicate LongIds(a: AdapterMaps) {
    (forall id :: id in a.fragments ==> IsLong(id)) && (forall id :: id in a.savedStates ==> IsLong(id))
  }

  lemma CreateKeysInjective(prefix: string)
    ensures forall a, b :: IsLong(a) && IsLong(b) && CreateKey(prefix, a) == CreateKey(prefix, b) ==> a == b
  {
    forall a, b | IsLong(a) && IsLong(b) && CreateKey(prefix, a) == CreateKey(prefix, b) ensures a == b {
      CreateKeyInjective(prefix, a, b);
    }
  }

  /** The fragment entries `saveState` writes: one per fragment the manager holds. */
  function SavedFragments(a: AdapterMaps): map<string, BundleValue>
    requires LongIds(a)
  {
    CreateKeysInjective(KEY_PREFIX_FRAGMENT);
    map id | id in a.fragments && a.fragments[id].isAdded :: CreateKey(KEY_PREFIX_FRAGMENT, id) := FragmentValue(a.fragments[id].handle)
  }

  /** The state entries `saveState` writes: one per saved state of an item still in the adapter. */
  function SavedStates(a: AdapterMaps, itemCount: nat): map<string, BundleValue>
    requires LongIds(a)
  {
    CreateKeysInjective(KEY_PREFIX_STATE);
    map id | id in a.savedStates && ContainsItem(id, itemCount) :: CreateKey(KEY_PREFIX_STATE, id) := StateValue(a.savedStates[id])
  }

  /** `saveState`: both kinds of entry in one bundle. */
  function SaveState(a: AdapterMaps, itemCount: nat): (bundle: map<string, BundleValue>)
    requires LongIds(a)
    ensures bundle.Keys == SavedFragments(a).Keys + SavedStates(a, itemCount).Keys
  {
    SavedFragments(a) + SavedStates(a, itemCount)
  }

  /** The item a saved fragment key was written for. */
  lemma SavedFragmentId(a: AdapterMaps, key: string) returns (id: int)
    requires LongIds(a) && key in SavedFragments(a)
    ensures id in a.fragments && a.fragments[id].isAdded && IsLong(id)
    ensures key == CreateKey(KEY_PREFIX_FRAGMENT, id) && SavedFragments(a)[key] == FragmentValue(a.fragments[id].handle)
    ensures key[0] == 'f'
  {
    id :| id in a.fragments && a.fragments[id].isAdded && CreateKey(KEY_PREFIX_FRAGMENT, id) == key;
    CreateKeysInjective(KEY_PREFIX_FRAGMENT);
    assert key[..2] == KEY_PREFIX_FRAGMENT;
  }

  /** The item a saved state key was written for. */
  lemma SavedStateId(a: AdapterMaps, itemCount: nat, key: string) returns (id: int)
    requires LongIds(a) && key in SavedStates(a, itemCount)
    ensures id in a.savedStates && ContainsItem(id, itemCount) && IsLong(id)
    ensures key == CreateKey(KEY_PREFIX_STATE, id) && SavedStates(a, itemCount)[key] == StateValue(a.savedStates[id])
    ensures key[0] == 's'
  {
    id :| id in a.savedStates && ContainsItem(id, itemCount) && CreateKey(KEY_PREFIX_STATE, id) == key;
    CreateKeysInjective(KEY_PREFIX_STATE);
    assert key[..2] == KEY_PREFIX_STATE;
  }

  /** No key is both a fragment key and a state key. */
  lemma SavedKeysDisjoint(a: AdapterMaps, itemCount: nat)
    requires LongIds(a)
    ensures SavedFragments(a).Keys !! SavedStates(a, itemCount).Keys
  {
    forall k | k in SavedFragments(a) ensures k !in SavedStates(a, itemCount) {
      var i := SavedFragmentId(a, k);
      if k in SavedStates(a, itemCount) {
        var j := SavedStateId(a, itemCount, k);
      }
    }
  }

  /**
   * One step of the `restoreState` loop: a fragment key restores its
   * fragment, a state key restores the state of an item still in the
   * adapter, and any other key, or a key whose id does not parse, throws.
   */
  function RestoreKey(key: string, value: BundleValue, itemCount: nat, a: AdapterMaps): (r: Result<AdapterMaps, string>)
    ensures IsValidKey(key, KEY_PREFIX_FRAGMENT) && ParseIdFromKey(key, KEY_PREFIX_FRAGMENT).Some? && value.FragmentValue? ==>
              r == Ok(a.(fragments := a.fragments[ParseIdFromKey(key, KEY_PREFIX_FRAGMENT).value := Fragment(value.handle, true)]))
    ensures IsValidKey(key, KEY_PREFIX_STATE) && ParseIdFromKey(key, KEY_PREFIX_STATE).Some? && value.StateValue? ==>
              var id := ParseIdFromKey(key, KEY_PREFIX_STATE).value;
              r == Ok(if ContainsItem(id, itemCount) then a.(savedStates := a.savedStates[id := value.state]) else a)
    ensures r.Err? <==>
              !(IsValidKey(key, KEY_PREFIX_FRAGMENT) && ParseIdFromKey(key, KEY_PREFIX_FRAGMENT).Some? && value.FragmentValue?) &&
              !(IsValidKey(key, KEY_PREFIX_STATE) && ParseIdFromKey(key, KEY_PREFIX_STATE).Some? && value.StateValue?)
  {
    if IsValidKey(key, KEY_PREFIX_FRAGMENT) && ParseIdFromKey(key, KEY_PREFIX_FRAGMENT).None? then
      Err("NumberFormatException")
    else if IsValidKey(key, KEY_PREFIX_FRAGMENT) && value.FragmentValue? then
      var itemId := ParseIdFromKey(key, KEY_PREFIX_FRAGMENT).value;
      Ok(a.(fragments := a.fragments[itemId := Fragment(value.handle, true)]))
    else if IsValidKey(key, KEY_PREFIX_STATE) && ParseIdFromKey(key, KEY_PREFIX_STATE).None? then
      Err("NumberFormatException")
    else if IsValidKey(key, KEY_PREFIX_STATE) && value.StateValue? then
      var itemId := ParseIdFromKey(key, KEY_PREFIX_STATE).value;
      Ok(if ContainsItem(itemId, itemCount) then a.(savedStates := a.savedStates[itemId := value.state]) else a)
    else
      Err("Unexpected key found while restoring state")
  }

  /** The guard of `restoreState` as written: it throws unless both maps already hold something. */
  function RestoreGuardAsWritten(a: AdapterMaps): (r: Result<AdapterMaps, string>)
    ensures r.Err? <==> |a.savedStates| == 0 || |a.fragments| == 0
  {
    if |a.savedStates| == 0 || |a.fragments| == 0 then Err("The adapter is not fresh while restoring state") else Ok(a)
  }

  /** The guard its message describes: restoring is only allowed into a fresh adapter. */
  function RestoreGuard(a: AdapterMaps): (r: Result<AdapterMaps, string>)
    ensures r.Ok? <==> a.savedStates == map[] && a.fragments == map[]
  {
    if |a.savedStates| != 0 || |a.fragments| != 0 then Err("The adapter is not fresh while restoring state") else Ok(a)
  }

  /** A fresh adapter, the one case restoring is meant for, is refused as written and accepted by the intended guard. */
  lemma FreshAdapterRefusedAsWritten()
    ensures RestoreGuardAsWritten(AdapterMaps(map[], map[])).Err?
    ensures RestoreGuard(AdapterMaps(map[], map[])).Ok?
  {
  }

  /** The `restoreState` loop over the bundle's keys in the order given, stopping at the first throw. */
  function RestoreKeys(a: AdapterMaps, itemCount: nat, bundle: map<string, BundleValue>, keys: seq<string>): Result<AdapterMaps, string>
    requires forall k :: k in keys ==> k in bundle
    decreases |keys|
  {
    if |keys| == 0 then Ok(a)
    else
      match RestoreKeys(a, itemCount, bundle, keys[..|keys| - 1])
      case Err(e) => Err(e)
      case Ok(s) => RestoreKey(keys[|keys| - 1], bundle[keys[|keys| - 1]], itemCount, s)
  }

  /** Once a key throws, the rest of the loop does not run. */
  lemma {:induction false} RestoreErrorSticks(a: AdapterMaps, itemCount: nat, bundle: map<string, BundleValue>, keys: seq<string>, j: nat)
    requires forall k :: k in keys ==> k in bundle
    requires j <= |keys| && RestoreKeys(a, itemCount, bundle, keys[..j]).Err?
    ensures RestoreKeys(a, itemCount, bundle, keys) == RestoreKeys(a, itemCount, bundle, keys[..j])
    decreases |keys|
  {
    if j == |keys| {
      assert keys[..j] == keys;
    } else {
      var init := keys[..|keys| - 1];
      assert init[..j] == keys[..j];
      RestoreErrorSticks(a, itemCount, bundle, init, j);
    }
  }

  /**
   * `restoreState` as written: the guard refuses every adapter with an empty
   * map, the fresh one included, and otherwise the keys are restored.
   */
  function RestoreStateAsWritten(a: AdapterMaps, itemCount: nat, bundle: map<string, BundleValue>, keys: seq<string>)
    : (r: Result<AdapterMaps, string>)
    requires forall k :: k in keys ==> k in bundle
    ensures a == AdapterMaps(map[], map[]) ==> r.Err?
    ensures r.Ok? ==> a.savedStates != map[] && a.fragments != map[]
    ensures |a.savedStates| != 0 && |a.fragments| != 0 ==> r == RestoreKeys(a, itemCount, bundle, keys)
  {
    match RestoreGuardAsWritten(a)
    case Err(e) => Err(e)
    case Ok(_) => RestoreKeys(a, itemCount, bundle, keys)
  }

  /** `restoreState` with the intended guard; the garbage collection it then schedules is not modelled. */
  method RestoreState(a: AdapterMaps, itemCount: nat, bundle: map<string, BundleValue>, keys: seq<string>)
    returns (r: Result<AdapterMaps, string>)
    requires forall k :: k in keys <==> k in bundle
    ensures r.Ok? ==> a == AdapterMaps(map[], map[])
    ensures a == AdapterMaps(map[], map[]) ==> r == RestoreKeys(a, itemCount, bundle, keys)
  {
    var guard := RestoreGuard(a);
    if guard.Err? {
      return Err(guard.error);
    }
    var cur := a;
    var i := 0;
    while i < |keys|
      invariant 0 <= i <= |keys|
      invariant RestoreKeys(a, itemCount, bundle, keys[..i]) == Ok(cur)
    {
      assert keys[..i + 1][..i] == keys[..i];
      var step := RestoreKey(keys[i], bundle[keys[i]], itemCount, cur);
      if step.Err? {
        RestoreErrorSticks(a, itemCount, bundle, keys, i + 1);
        return step;
      }
      cur := step.value;
      i := i + 1;
    }
    assert keys[..|keys|] == keys;
    return Ok(cur);
  }

  /** The fragments restored from the `visited` keys of a bundle saved from `orig`. */
  ghost predicate FragmentsRestored(s: AdapterMaps, orig: AdapterMaps, visited: seq<string>) {
    (forall id :: id in s.fragments <==>
       id in orig.fragments && orig.fragments[id].isAdded && CreateKey(KEY_PREFIX_FRAGMENT, id) in visited) &&
    (forall id :: id in s.fragments ==> s.fragments[id] == Fragment(orig.fragments[id].handle, true))
  }

  /** The states restored from the `visited` keys of a bundle saved from `orig`. */
  ghost predicate StatesRestored(s: AdapterMaps, orig: AdapterMaps, itemCount: nat, visited: seq<string>) {
    (forall id :: id in s.savedStates <==>
       id in orig.savedStates && ContainsItem(id, itemCount) && CreateKey(KEY_PREFIX_STATE, id) in visited) &&
    (forall id :: id in s.savedStates ==> s.savedStates[id] == orig.savedStates[id])
  }

  /** Restoring a fragment adds exactly the fragment of the visited key. */
  lemma FragmentAdded(s: AdapterMaps, orig: AdapterMaps, visited: seq<string>, id: int, key: string)
    requires LongIds(orig) && FragmentsRestored(s, orig, visited)
    requires id in orig.fragments && orig.fragments[id].isAdded && key == CreateKey(KEY_PREFIX_FRAGMENT, id)
    ensures FragmentsRestored(s.(fragments := s.fragments[id := Fragment(orig.fragments[id].handle, true)]), orig, visited + [key])
  {
    forall j | j != id && j in orig.fragments
      ensures CreateKey(KEY_PREFIX_FRAGMENT, j) != key
    {
      if CreateKey(KEY_PREFIX_FRAGMENT, j) == key {
        CreateKeyInjective(KEY_PREFIX_FRAGMENT, j, id);
      }
    }
  }

  /** Restoring a state adds exactly the state of the visited key. */
  lemma StateAdded(s: AdapterMaps, orig: AdapterMaps, itemCount: nat, visited: seq<string>, id: int, key: string)
    requires LongIds(orig) && StatesRestored(s, orig, itemCount, visited)
    requires id in orig.savedStates && ContainsItem(id, itemCount) && key == CreateKey(KEY_PREFIX_STATE, id)
    ensures StatesRestored(s.(savedStates := s.savedStates[id := orig.savedStates[id]]), orig, itemCount, visited + [key])
  {
    forall j | j != id && j in orig.savedStates
      ensures CreateKey(KEY_PREFIX_STATE, j) != key
    {
      if CreateKey(KEY_PREFIX_STATE, j) == key {
        CreateKeyInjective(KEY_PREFIX_STATE, j, id);
      }
    }
  }

  /** A key that is no fragment key leaves the restored fragments as they were. */
  lemma FragmentsKept(s: AdapterMaps, r: AdapterMaps, orig: AdapterMaps, visited: seq<string>, key: string)
    requires FragmentsRestored(s, orig, visited) && r.fragments == s.fragments
    requires |key| > 0 && key[0] != KEY_PREFIX_FRAGMENT[0]
    ensures FragmentsRestored(r, orig, visited + [key])
  {
    forall j ensures CreateKey(KEY_PREFIX_FRAGMENT, j) != key {
      assert CreateKey(KEY_PREFIX_FRAGMENT, j)[..2] == KEY_PREFIX_FRAGMENT;
    }
  }

  /** A key that is no state key leaves the restored states as they were. */
  lemma StatesKept(s: AdapterMaps, r: AdapterMaps, orig: AdapterMaps, itemCount: nat, visited: seq<string>, key: string)
    requires StatesRestored(s, orig, itemCount, visited) && r.savedStates == s.savedStates
    requires |key| > 0 && key[0] != KEY_PREFIX_STATE[0]
    ensures StatesRestored(r, orig, itemCount, visited + [key])
  {
    forall j ensures CreateKey(KEY_PREFIX_STATE, j) != key {
      assert CreateKey(KEY_PREFIX_STATE, j)[..2] == KEY_PREFIX_STATE;
    }
  }

  /** A saved fragment key restores its fragment and nothing else. */
  lemma RestoreFragmentKey(orig: AdapterMaps, itemCount: nat, s: AdapterMaps, visited: seq<string>, key: string)
    requires LongIds(orig) && key in SavedFragments(orig)
    requires FragmentsRestored(s, orig, visited) && StatesRestored(s, orig, itemCount, visited)
    ensures var r := RestoreKey(key, SavedFragments(orig)[key], itemCount, s);
            r.Ok? && FragmentsRestored(r.value, orig, visited + [key]) && StatesRestored(r.value, orig, itemCount, visited + [key])
  {
    var id := SavedFragmentId(orig, key);
    KeyRoundTrip(KEY_PREFIX_FRAGMENT, id);
    var r := s.(fragments := s.fragments[id := Fragment(orig.fragments[id].handle, true)]);
    assert RestoreKey(key, SavedFragments(orig)[key], itemCount, s) == Ok(r);
    FragmentAdded(s, orig, visited, id, key);
    StatesKept(s, r, orig, itemCount, visited, key);
  }

  /** A saved state key restores its state and nothing else. */
  lemma RestoreStateKey(orig: AdapterMaps, itemCount: nat, s: AdapterMaps, visited: seq<string>, key: string)
    requires LongIds(orig) && key in SavedStates(orig, itemCount)
    requires FragmentsRestored(s, orig, visited) && StatesRestored(s, orig, itemCount, visited)
    ensures var r := RestoreKey(key, SavedStates(orig, itemCount)[key], itemCount, s);
            r.Ok? && FragmentsRestored(r.value, orig, visited + [key]) && StatesRestored(r.value, orig, itemCount, visited + [key])
  {
    var id := SavedStateId(orig, itemCount, key);
    KeyRoundTrip(KEY_PREFIX_STATE, id);
    PrefixesDisjoint(id);
    var r := s.(savedStates := s.savedStates[id := orig.savedStates[id]]);
    assert RestoreKey(key, SavedStates(orig, itemCount)[key], itemCount, s) == Ok(r);
    StateAdded(s, orig, itemCount, visited, id, key);
    FragmentsKept(s, r, orig, visited, key);
  }

  /** Where a key of a saved bundle comes from. */
  lemma BundleEntry(orig: AdapterMaps, itemCount: nat, key: string)
    requires LongIds(orig) && key in SaveState(orig, itemCount)
    ensures key in SavedFragments(orig) ==> SaveState(orig, itemCount)[key] == SavedFragments(orig)[key]
    ensures key !in SavedFragments(orig) ==> key in SavedStates(orig, itemCount) && SaveState(orig, itemCount)[key] == SavedStates(orig, itemCount)[key]
  {
    SavedKeysDisjoint(orig, itemCount);
  }

  /** Restoring any run of saved keys into a fresh adapter never throws and restores the entries of those keys. */
  lemma {:induction false} RestoreSavedKeys(orig: AdapterMaps, itemCount: nat, keys: seq<string>)
    requires LongIds(orig)
    requires forall k :: k in keys ==> k in SaveState(orig, itemCount)
    ensures var r := RestoreKeys(AdapterMaps(map[], map[]), itemCount, SaveState(orig, itemCount), keys);
            r.Ok? && FragmentsRestored(r.value, orig, keys) && StatesRestored(r.value, orig, itemCount, keys)
    decreases |keys|
  {
    if |keys| > 0 {
      var init := keys[..|keys| - 1];
      var key := keys[|keys| - 1];
      assert keys == init + [key];
      RestoreSavedKeys(orig, itemCount, init);
      var s := RestoreKeys(AdapterMaps(map[], map[]), itemCount, SaveState(orig, itemCount), init).value;
      BundleEntry(orig, itemCount, key);
      if key in SavedFragments(orig) {
        RestoreFragmentKey(orig, itemCount, s, init, key);
      } else {
        RestoreStateKey(orig, itemCount, s, init, key);
      }
    }
  }

  /** Every fragment the manager holds is written to the bundle. */
  lemma FragmentIsSaved(orig: AdapterMaps, itemCount: nat, id: int)
    requires LongIds(orig) && id in orig.fragments && orig.fragments[id].isAdded
    ensures CreateKey(KEY_PREFIX_FRAGMENT, id) in SaveState(orig, itemCount)
  {
    assert CreateKey(KEY_PREFIX_FRAGMENT, id) in SavedFragments(orig);
  }

  /** Every saved state of an item still in the adapter is written to the bundle. */
  lemma StateIsSaved(orig: AdapterMaps, itemCount: nat, id: int)
    requires LongIds(orig) && id in orig.savedStates && ContainsItem(id, itemCount)
    ensures CreateKey(KEY_PREFIX_STATE, id) in SaveState(orig, itemCount)
  {
    assert CreateKey(KEY_PREFIX_STATE, id) in SavedStates(orig, itemCount);
  }

  /**
   * Save and restore: restoring the bundle `saveState` wrote, whatever order
   * its keys come in, gives a fresh adapter every fragment the manager held
   * and the saved state of every item still in the adapter.
   */
  lemma SaveRestoreRoundTrip(orig: AdapterMaps, itemCount: nat, keys: seq<string>)
    requires LongIds(orig)
    requires forall k :: k in keys <==> k in SaveState(orig, itemCount)
    ensures var r := RestoreKeys(AdapterMaps(map[], map[]), itemCount, SaveState(orig, itemCount), keys);
            r.Ok? &&
            (forall id :: id in r.value.fragments <==> id in orig.fragments && orig.fragments[id].isAdded) &&
            (forall id :: id in r.value.fragments ==> r.value.fragments[id].handle == orig.fragments[id].handle) &&
            (forall id :: id in r.value.savedStates <==> id in orig.savedStates && ContainsItem(id, itemCount)) &&
            (forall id :: id in r.value.savedStates ==> r.value.savedStates[id] == orig.savedStates[id])
  {
    RestoreSavedKeys(orig, itemCount, keys);
    forall id | id in orig.fragments && orig.fragments[id].isAdded
      ensures CreateKey(KEY_PREFIX_FRAGMENT, id) in keys
    {
      FragmentIsSaved(orig, itemCount, id);
    }
    forall id | id in orig.savedStates && ContainsItem(id, itemCount)
      ensures CreateKey(KEY_PREFIX_STATE, id) in keys
    {
      StateIsSaved(orig, itemCount, id);
    }
  }
}
