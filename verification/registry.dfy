/**
 The topic map of the client: topic name to the ordered callback list that
 plays the part of one `jQuery.Callbacks()` object. The list follows the
 library's default flags: `add` appends even a callback that is already
 present, `remove` drops every occurrence of the given identity.
 */
module TopicRegistry {

  type Topic = string
  type CallbackId = nat
  type ScopeId = nat

  /**
   A registered callback. `Bare` is the caller's own function; `Wrapped` is
   the per-subscription wrapper made when a scope is supplied. The `serial`
   gives every wrapper an identity of its own, distinct from the bare
   callback and from every other wrapper of the same callback.
   */
  datatype Callback = Bare(id: CallbackId) | Wrapped(inner: CallbackId, scope: ScopeId, serial: nat)
  {
    /** The caller's function that runs when this entry fires. */
    function Target(): CallbackId {
      match this
      case Bare(id) => id
      case Wrapped(inner, _, _) => inner
    }
  }

  type Registry = map<Topic, seq<Callback>>

  /** The callbacks registered for `topic`, empty when it has no entry. */
  function Listeners(reg: Registry, topic: Topic): seq<Callback> {
    if topic in reg then reg[topic] else []
  }

  /** Removes every occurrence of `cb`, keeping the others in order. */
  function Remove(list: seq<Callback>, cb: Callback): (r: seq<Callback>)
    ensures forall c :: c in r <==> c in list && c != cb
    ensures multiset(r) == multiset(list)[cb := 0]
    decreases |list|
  {
    if list == [] then []
    else
      assert list == [list[0]] + list[1..];
      if list[0] == cb then Remove(list[1..], cb)
      else [list[0]] + Remove(list[1..], cb)
  }

  /** Removing an identity that is not in the list changes nothing. */
  lemma {:induction false} RemoveAbsent(list: seq<Callback>, cb: Callback)
    requires cb !in list
    ensures Remove(list, cb) == list
    decreases |list|
  {
    if list != [] {
      RemoveAbsent(list[1..], cb);
    }
  }

  /** Removal works element by element, so it keeps the relative order. */
  lemma {:induction false} RemoveAppend(a: seq<Callback>, b: seq<Callback>, cb: Callback)
    ensures Remove(a + b, cb) == Remove(a, cb) + Remove(b, cb)
    decreases |a|
  {
    if a == [] {
      assert a + b == b;
    } else {
      assert (a + b)[1..] == a[1..] + b;
      RemoveAppend(a[1..], b, cb);
    }
  }

  /**
   Removes every occurrence of every identity in `gone`, keeping the others
   in order: the combined effect of several `remove` calls.
   */
  function RemoveAll(list: seq<Callback>, gone: set<Callback>): (r: seq<Callback>)
    ensures forall c :: c in r <==> c in list && c !in gone
    ensures forall c :: multiset(r)[c] == if c in gone then 0 else multiset(list)[c]
    ensures gone == {} ==> r == list
    decreases |list|
  {
    if list == [] then []
    else
      assert list == [list[0]] + list[1..];
      (if list[0] in gone then [] else [list[0]]) + RemoveAll(list[1..], gone)
  }

  /** Removing one identity is removing the singleton set of it. */
  lemma {:induction false} RemoveIsRemoveAll(list: seq<Callback>, cb: Callback)
    ensures Remove(list, cb) == RemoveAll(list, {cb})
    decreases |list|
  {
    if list != [] {
      RemoveIsRemoveAll(list[1..], cb);
    }
  }

  /** Removing one set and then another removes their union. */
  lemma {:induction false} RemoveAllTwice(list: seq<Callback>, a: set<Callback>, b: set<Callback>)
    ensures RemoveAll(RemoveAll(list, a), b) == RemoveAll(list, a + b)
    decreases |list|
  {
    if list != [] {
      var rest := RemoveAll(list[1..], a);
      RemoveAllTwice(list[1..], a, b);
      if list[0] in a {
        assert RemoveAll(list, a) == rest;
      } else {
        assert RemoveAll(list, a) == [list[0]] + rest;
        assert ([list[0]] + rest)[1..] == rest;
        assert RemoveAll([list[0]] + rest, b) == (if list[0] in b then [] else [list[0]]) + RemoveAll(rest, b);
      }
    }
  }

  /**
   Adds `cb` to the topic's list, creating the entry when the topic has none.
   The flag says whether the entry was created, which is exactly when the
   client must announce the topic to the server.
   */
  function Register(reg: Registry, topic: Topic, cb: Callback): (r: (Registry, bool))
    ensures r.1 <==> topic !in reg
    ensures r.0.Keys == reg.Keys + {topic}
    ensures r.0[topic] == Listeners(reg, topic) + [cb]
    ensures forall t :: t in reg && t != topic ==> r.0[t] == reg[t]
  {
    (reg[topic := Listeners(reg, topic) + [cb]], topic !in reg)
  }

  /**
   Removes `cb` from the topic's list when the topic has an entry. The entry
   itself stays even when its list becomes empty, and no other topic changes.
   */
  function Unregister(reg: Registry, topic: Topic, cb: Callback): (r: Registry)
    ensures r.Keys == reg.Keys
    ensures topic !in reg ==> r == reg
    ensures topic in reg ==> forall c :: c in r[topic] <==> c in reg[topic] && c != cb
    ensures topic in reg ==> r[topic] == Remove(reg[topic], cb)
    ensures forall t :: t in reg && t != topic ==> r[t] == reg[t]
  {
    if topic in reg then reg[topic := Remove(reg[topic], cb)] else reg
  }

  /** Removing the identity just appended, when it was not there before, restores the list. */
  lemma RemoveJustAdded(before: seq<Callback>, cb: Callback)
    requires cb !in before
    ensures Remove(before + [cb], cb) == before
  {
    RemoveAppend(before, [cb], cb);
    RemoveAbsent(before, cb);
    assert Remove([cb], cb) == [];
  }

  /**
   Unregistering a callback that was not yet in the list undoes registering
   it: the topic's list is back to what it was, though the entry remains.
   */
  lemma RegisterThenUnregister(reg: Registry, topic: Topic, cb: Callback)
    requires cb !in Listeners(reg, topic)
    ensures Unregister(Register(reg, topic, cb).0, topic, cb) == reg[topic := Listeners(reg, topic)]
  {
    var before := Listeners(reg, topic);
    var added := Register(reg, topic, cb).0;
    RemoveJustAdded(before, cb);
    assert Unregister(added, topic, cb) == added[topic := before];
  }
}
