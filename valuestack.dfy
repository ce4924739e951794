/**
 * ValueStack<T> (listunitareas.hpp): a map from names to stacks of values,
 * with a default value for names that have none.  A stack is a sequence
 * whose last element is its top; a key whose stack empties is erased.
 */
module ValueStacks {
  type Stacks<T> = map<string, seq<T>>

  /** No key is kept with an empty stack. */
  ghost predicate NoEmptyStacks<T>(m: Stacks<T>)
  {
    forall k :: k in m ==> |m[k]| > 0
  }

  /** push: a missing key gets an empty stack first; then the value goes on top. */
  function Pushed<T>(m: Stacks<T>, key: string, value: T): Stacks<T>
  {
    m[key := (if key in m then m[key] else []) + [value]]
  }

  /** pop on a present key: the stack loses its top, and the key is erased when nothing is left. */
  function Popped<T>(m: Stacks<T>, key: string): Stacks<T>
    requires key in m && |m[key]| > 0
  {
    var s := m[key];
    if |s| == 1 then m - {key} else m[key := s[..|s| - 1]]
  }

  /** get: the top for the key, or the default value. */
  function Top<T>(m: Stacks<T>, key: string, defaultValue: T): T
    requires NoEmptyStacks(m)
  {
    if key in m then m[key][|m[key]| - 1] else defaultValue
  }

  class ValueStack<T> {
    var defaultValue: T
    var stacks: Stacks<T>

    ghost predicate Valid()
      reads this
    {
      NoEmptyStacks(stacks)
    }

    constructor (defaultValue: T)
      ensures Valid() && this.defaultValue == defaultValue && stacks == map[]
    {
      this.defaultValue := defaultValue;
      stacks := map[];
    }

    method Push(key: string, value: T)
      requires Valid()
      modifies this
      ensures Valid() && stacks == Pushed(old(stacks), key, value) && defaultValue == old(defaultValue)
    {
      if key !in stacks {
        stacks := stacks[key := []];
      }
      stacks := stacks[key := stacks[key] + [value]];
    }

    method Pop(key: string) returns (element: T)
      requires Valid()
      modifies this
      ensures Valid() && defaultValue == old(defaultValue)
      ensures element == Top(old(stacks), key, defaultValue)
      ensures stacks == if key in old(stacks) then Popped(old(stacks), key) else old(stacks)
    {
      if key in stacks {
        var s := stacks[key];
        element := s[|s| - 1];
        s := s[..|s| - 1];
        if |s| == 0 {
          stacks := stacks - {key};
        } else {
          stacks := stacks[key := s];
        }
        return;
      }
      return defaultValue;
    }

    function Get(key: string): T
      requires Valid()
      reads this
    {
      Top(stacks, key, defaultValue)
    }
  }

  /** Pushing keeps every stack non-empty, and so does popping. */
  lemma PushPopKeepNoEmpty<T>(m: Stacks<T>, key: string, value: T)
    requires NoEmptyStacks(m)
    ensures NoEmptyStacks(Pushed(m, key, value))
    ensures key in m ==> NoEmptyStacks(Popped(m, key))
  {
  }

  /** After push(k, v), get(k) is v. */
  lemma GetAfterPush<T>(m: Stacks<T>, key: string, value: T, defaultValue: T)
    requires NoEmptyStacks(m)
    ensures NoEmptyStacks(Pushed(m, key, value)) && Top(Pushed(m, key, value), key, defaultValue) == value
  {
  }

  /** pop undoes push: the map is as before and the pushed value comes back. */
  lemma PopUndoesPush<T>(m: Stacks<T>, key: string, value: T)
    requires NoEmptyStacks(m)
    ensures key in Pushed(m, key, value) && Popped(Pushed(m, key, value), key) == m
  {
    var s := if key in m then m[key] else [];
    assert (s + [value])[..|s|] == s;
    if key !in m {
      assert Pushed(m, key, value) - {key} == m;
    }
  }

  /** Popping the last value of a key erases it, after which get returns the default value. */
  lemma PopLastErases<T>(m: Stacks<T>, key: string, defaultValue: T)
    requires NoEmptyStacks(m) && key in m && |m[key]| == 1
    ensures key !in Popped(m, key) && Top(Popped(m, key), key, defaultValue) == defaultValue
  {
  }

  /** Operations on one key never change get on another. */
  lemma OtherKeysUnchanged<T>(m: Stacks<T>, key: string, other: string, value: T, defaultValue: T)
    requires NoEmptyStacks(m) && other != key
    ensures Top(Pushed(m, key, value), other, defaultValue) == Top(m, other, defaultValue)
    ensures key in m ==> Top(Popped(m, key), other, defaultValue) == Top(m, other, defaultValue)
  {
  }
}
