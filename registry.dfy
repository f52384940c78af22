/** The listener registry an event emitter keeps: each event key maps to the
    listeners registered under it, in registration order, and the keys keep
    the order in which they were first added. These are the operations the
    emitter inherits from Node's EventEmitter (`on`, `removeListener`,
    `removeAllListeners`, `listeners`), following their documented
    behaviour. */
module Registry {
  import opened Values

  datatype Registry = Registry(keys: seq<string>, lists: map<string, seq<Listener>>)

  /** Keys are distinct, `keys` lists exactly the keys of `lists`, and no key
      is kept with an empty listener sequence. */
  ghost predicate Valid(r: Registry) {
    && Distinct(r.keys)
    && (forall k :: k in r.lists <==> k in r.keys)
    && (forall k :: k in r.lists ==> r.lists[k] != [])
  }

  /** No element occurs twice. */
  ghost predicate Distinct(s: seq<string>) {
    s == [] || (s[0] !in s[1..] && Distinct(s[1..]))
  }

  /** Appending a new element keeps a sequence distinct. */
  lemma {:induction false} DistinctAppend(s: seq<string>, x: string)
    requires Distinct(s) && x !in s
    ensures Distinct(s + [x])
  {
    if s == [] {
      assert [] + [x] == [x];
    } else {
      assert (s + [x])[1..] == s[1..] + [x];
      assert (s + [x])[0] == s[0];
      DistinctAppend(s[1..], x);
    }
  }

  function Empty(): (r: Registry)
    ensures Valid(r) && r.keys == []
  {
    Registry([], map[])
  }

  /** `listeners(key)`: a copy of the key's listeners; never absent, and
      empty for a key that has none. */
  function Listeners(r: Registry, key: string): (ls: seq<Listener>)
    ensures key !in r.lists ==> ls == []
  {
    if key in r.lists then r.lists[key] else []
  }

  /** `on(key, l)`: append `l` to the end of the key's listeners, adding the
      key after all existing keys if it was absent. */
  function On(r: Registry, key: string, l: Listener): (r': Registry)
    requires Valid(r)
    ensures Valid(r')
    ensures Listeners(r', key) == Listeners(r, key) + [l]
    ensures forall k :: k != key ==> Listeners(r', k) == Listeners(r, k)
    ensures r'.keys == if key in r.keys then r.keys else r.keys + [key]
  {
    if key in r.lists then
      Registry(r.keys, r.lists[key := r.lists[key] + [l]])
    else
      DistinctAppend(r.keys, key);
      Registry(r.keys + [key], r.lists[key := [l]])
  }

  /** The index of the last occurrence of `l` in `s`, or -1 if it does not occur. */
  function LastIndexOf(s: seq<Listener>, l: Listener): (i: int)
    ensures -1 <= i < |s|
    ensures i == -1 <==> l !in s
    ensures 0 <= i ==> s[i] == l && l !in s[i + 1..]
  {
    if s == [] then -1
    else if s[|s| - 1] == l then |s| - 1
    else
      var i := LastIndexOf(s[..|s| - 1], l);
      assert i >= 0 ==> s[i + 1..] == s[..|s| - 1][i + 1..] + [s[|s| - 1]];
      i
  }

  /** `s` with its most recently added instance of `l` removed (unchanged if
      `l` is absent): one `l` fewer, everything before the last `l` in place,
      everything after it moved down by one in its order, and no `l` from
      that position on. */
  function RemoveLast(s: seq<Listener>, l: Listener): (s': seq<Listener>)
    ensures l !in s ==> s' == s
    ensures l in s ==> |s'| == |s| - 1 && multiset(s') == multiset(s) - multiset{l}
    ensures l in s ==> s'[..LastIndexOf(s, l)] == s[..LastIndexOf(s, l)] && l !in s'[LastIndexOf(s, l)..]
    ensures l in s ==> s'[LastIndexOf(s, l)..] == s[LastIndexOf(s, l) + 1..]
  {
    var i := LastIndexOf(s, l);
    if i < 0 then s
    else
      assert s == s[..i] + [s[i]] + s[i + 1..];
      assert (s[..i] + s[i + 1..])[i..] == s[i + 1..];
      s[..i] + s[i + 1..]
  }

  /** `keys` without `key`. */
  function Without(keys: seq<string>, key: string): (r: seq<string>)
    ensures forall k :: k in r <==> k in keys && k != key
    ensures key !in keys ==> r == keys
  {
    if keys == [] then []
    else if keys[0] == key then Without(keys[1..], key)
    else [keys[0]] + Without(keys[1..], key)
  }

  /** Dropping a key from a distinct sequence splices it out at its position:
      the other keys keep their order. */
  lemma {:induction false} WithoutSplice(keys: seq<string>, key: string, i: nat)
    requires Distinct(keys) && i < |keys| && keys[i] == key
    ensures Without(keys, key) == keys[..i] + keys[i + 1..]
  {
    var tail := keys[1..];
    if i == 0 {
      assert Without(keys, key) == keys[1..] by {
        assert key !in tail;
      }
    } else {
      assert key in tail by {
        assert tail[i - 1] == key;
      }
      WithoutSplice(tail, key, i - 1);
      calc {
        Without(keys, key);
        [keys[0]] + Without(tail, key);
        [keys[0]] + (tail[..i - 1] + tail[i..]);
        { assert keys[..i] == [keys[0]] + tail[..i - 1]; assert keys[i + 1..] == tail[i..]; }
        keys[..i] + keys[i + 1..];
      }
    }
  }

  /** Dropping a key keeps the others distinct. */
  lemma {:induction false} WithoutDistinct(keys: seq<string>, key: string)
    requires Distinct(keys)
    ensures Distinct(Without(keys, key))
  {
    if keys != [] {
      WithoutDistinct(keys[1..], key);
      if keys[0] != key {
        var rest := Without(keys[1..], key);
        assert keys[0] !in rest;
        assert ([keys[0]] + rest)[1..] == rest;
      }
    }
  }

  /** Remove `key` and its listener sequence altogether. */
  function Drop(r: Registry, key: string): (r': Registry)
    requires Valid(r)
    ensures Valid(r')
    ensures Listeners(r', key) == []
    ensures forall k :: k != key ==> Listeners(r', k) == Listeners(r, k)
    ensures r'.keys == Without(r.keys, key)
    ensures key !in r.keys ==> r' == r
  {
    WithoutDistinct(r.keys, key);
    Registry(Without(r.keys, key), r.lists - {key})
  }

  /** `removeListener(key, l)`: remove the most recently added instance of `l`
      from the key's listeners; the key is dropped when none remain. */
  function RemoveListener(r: Registry, key: string, l: Listener): (r': Registry)
    requires Valid(r)
    ensures Valid(r')
    ensures Listeners(r', key) == RemoveLast(Listeners(r, key), l)
    ensures forall k :: k != key ==> Listeners(r', k) == Listeners(r, k)
    ensures RemoveLast(Listeners(r, key), l) != [] ==> r'.keys == r.keys
    ensures RemoveLast(Listeners(r, key), l) == [] ==> r'.keys == Without(r.keys, key)
    ensures l !in Listeners(r, key) ==> r' == r
  {
    if key !in r.lists then r
    else
      var rest := RemoveLast(r.lists[key], l);
      if rest == [] then Drop(r, key)
      else Registry(r.keys, r.lists[key := rest])
  }

  /** `removeAllListeners(key)`: drop the key with all its listeners. */
  function RemoveAllListeners(r: Registry, key: string): (r': Registry)
    requires Valid(r)
    ensures Valid(r')
    ensures Listeners(r', key) == []
    ensures forall k :: k != key ==> Listeners(r', k) == Listeners(r, k)
    ensures r'.keys == Without(r.keys, key)
  {
    Drop(r, key)
  }

  /** In a valid registry a key has listeners exactly when it is one of the keys. */
  lemma ListenersEmptyIffAbsent(r: Registry, key: string)
    requires Valid(r)
    ensures Listeners(r, key) == [] <==> key !in r.keys
  {
  }

  /** `removeListener` undoes `on`: the registry, key order included, is restored. */
  lemma RemoveListenerUndoesOn(r: Registry, key: string, l: Listener)
    requires Valid(r)
    ensures RemoveListener(On(r, key, l), key, l) == r
  {
    RemoveLastOfAppended(Listeners(r, key), l);
    if key in r.lists {
      UndoOnPresent(r, key, l);
    } else {
      UndoOnAbsent(r, key, l);
    }
  }

  lemma UndoOnPresent(r: Registry, key: string, l: Listener)
    requires Valid(r) && key in r.lists && RemoveLast(r.lists[key] + [l], l) == r.lists[key]
    ensures RemoveListener(On(r, key, l), key, l) == r
  {
    var s := r.lists[key];
    assert On(r, key, l) == Registry(r.keys, r.lists[key := s + [l]]);
    assert r.lists[key := s + [l]][key := s] == r.lists;
  }

  lemma UndoOnAbsent(r: Registry, key: string, l: Listener)
    requires Valid(r) && key !in r.lists && RemoveLast([l], l) == []
    ensures RemoveListener(On(r, key, l), key, l) == r
  {
    assert On(r, key, l) == Registry(r.keys + [key], r.lists[key := [l]]);
    WithoutAppend(r.keys, key);
    assert r.lists[key := [l]] - {key} == r.lists;
  }

  lemma RemoveLastOfAppended(s: seq<Listener>, l: Listener)
    ensures RemoveLast(s + [l], l) == s
  {
    assert LastIndexOf(s + [l], l) == |s|;
    assert (s + [l])[..|s|] == s;
  }

  lemma {:induction false} WithoutAppend(keys: seq<string>, key: string)
    requires key !in keys
    ensures Without(keys + [key], key) == keys
  {
    if keys == [] {
      assert [] + [key] == [key];
    } else {
      assert (keys + [key])[1..] == keys[1..] + [key];
      WithoutAppend(keys[1..], key);
      assert keys == [keys[0]] + keys[1..];
    }
  }

  /** `removeAllListeners` after `on` forgets the new listener too. */
  lemma RemoveAllAfterOn(r: Registry, key: string, l: Listener)
    requires Valid(r)
    ensures RemoveAllListeners(On(r, key, l), key) == RemoveAllListeners(r, key)
  {
    var r1 := On(r, key, l);
    if key !in r.keys {
      WithoutAppend(r.keys, key);
      assert r1.lists - {key} == r.lists - {key};
    } else {
      assert r1.lists - {key} == r.lists - {key};
    }
  }
}
