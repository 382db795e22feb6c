/**
 * The scenario context: a string-keyed dictionary of arbitrary values that
 * every step of a scenario shares, and the typed Set/Get extensions over it.
 *
 * Values are of an arbitrary type V (the source's `object`). Storing a T
 * boxes it into V; reading it back at type T is a cast, which is a partial
 * function V -> Option<T> that fails when the stored value is not a T.
 */
module ScenarioContext {
  import opened Wrappers
  import opened Exceptions

  /** Dictionary<string, object>: the entries are updated in place. */
  class Dictionary<V> {
    var entries: map<string, V>

    constructor ()
      ensures entries == map[]
    {
      entries := map[];
    }

    /** Removes every entry. */
    method Clear()
      modifies this
      ensures entries == map[]
    {
      entries := map[];
    }
  }

  /** A cast inverts boxing at type T: unboxing a boxed T gives it back. */
  ghost predicate CastInvertsBox<V(!new), T(!new)>(box: T -> V, cast: V -> Option<T>)
  {
    forall t :: cast(box(t)) == Some(t)
  }

  /** Set<T>: stores `value` under `key`, adding the key or overwriting its value. */
  method Set<V, T>(context: Dictionary<V>, key: string, value: T, box: T -> V)
    modifies context
    ensures context.entries == old(context.entries)[key := box(value)]
    ensures context.entries.Keys == old(context.entries).Keys + {key}
  {
    context.entries := context.entries[key := box(value)];
  }

  /**
   * Get<T>: the value stored under `key`, cast to T. A missing key throws
   * KeyNotFound; a stored value that is not a T throws InvalidCast.
   */
  function Get<V, T>(context: map<string, V>, key: string, cast: V -> Option<T>): (r: Result<T>)
    ensures r.Success? <==> key in context && cast(context[key]).Some?
    ensures r.Success? ==> cast(context[key]) == Some(r.value)
    ensures r.Failure? ==> r.error == (if key in context then InvalidCast else KeyNotFound(key))
  {
    if key !in context then Failure(KeyNotFound(key))
    else match cast(context[key])
      case None => Failure(InvalidCast)
      case Some(t) => Success(t)
  }

  /** Round trip: reading a key right after setting it gives the value set. */
  lemma GetAfterSet<V(!new), T(!new)>(context: map<string, V>, key: string, value: T,
                                      box: T -> V, cast: V -> Option<T>)
    requires CastInvertsBox(box, cast)
    ensures Get(context[key := box(value)], key, cast) == Success(value)
  {
  }

  /** Setting one key leaves what every other key reads unchanged. */
  lemma SetLeavesOtherKeys<V, T, U>(context: map<string, V>, key: string, stored: V,
                                    other: string, cast: V -> Option<U>)
    requires other != key
    ensures Get(context[key := stored], other, cast) == Get(context, other, cast)
  {
  }

  /**
   * Setting a key grows the key set by at most one, and not at all when the
   * key is already there (the old value is overwritten).
   */
  lemma SetGrowsKeysByAtMostOne<V>(context: map<string, V>, key: string, stored: V)
    ensures |context[key := stored].Keys| <= |context.Keys| + 1
    ensures key in context ==> |context[key := stored].Keys| == |context.Keys|
    ensures key !in context ==> |context[key := stored].Keys| == |context.Keys| + 1
  {
  }

  /** Reading at a type the stored value does not have throws InvalidCast. */
  lemma GetAtWrongTypeFails<V, T>(context: map<string, V>, key: string, stored: V,
                                  cast: V -> Option<T>)
    requires cast(stored) == None
    ensures Get(context[key := stored], key, cast) == Failure(InvalidCast)
  {
  }
}
