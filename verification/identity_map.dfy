/**
 * `mkr.map`: a dictionary keyed by strings or by objects. A string key is
 * stored under itself; an object is tagged, on first `set`, with a hidden
 * numeric id drawn from a counter shared by every map, and stored under the
 * decimal text of that id. The tag lives on the object, so all maps see it,
 * and a string key such as "5" shares the slot of the object tagged 5.
 */
module IdentityMaps {
  import opened JsBase

  /** A key handed to the map: a string or an object. */
  datatype Key = StrKey(s: string) | ObjKey(h: Handle)

  /** The `_mkrmapid` tags carried by objects, and the shared counter `_uid`. */
  class TagTable {
    var uid: int
    var tags: map<Handle, nat>

    ghost predicate Valid()
      reads this
    {
      && uid >= -1
      && (forall h :: h in tags ==> tags[h] <= uid)
      && TagsDistinct(tags)
    }

    constructor ()
      ensures Valid() && uid == -1 && tags == map[]
    {
      uid := -1;
      tags := map[];
    }

    /** Tag `h` with `++_uid` unless it already carries a tag. */
    method Tag(h: Handle) returns (id: nat)
      requires Valid()
      modifies this
      ensures Valid() && h in tags && id == tags[h]
      ensures h in old(tags) ==> tags == old(tags) && uid == old(uid)
      ensures h !in old(tags) ==> id == old(uid) + 1 == uid && tags == old(tags)[h := id]
    {
      if h in tags {
        id := tags[h];
      } else {
        uid := uid + 1;
        id := uid;
        tags := tags[h := id];
      }
    }

    /** `delete key._mkrmapid`. */
    method Untag(h: Handle)
      requires Valid()
      modifies this
      ensures Valid() && tags == old(tags) - {h} && uid == old(uid)
    {
      tags := tags - {h};
    }
  }

  /** A freshly drawn tag differs from every tag in use, so it names a slot no tagged object owns. */
  lemma FreshTagIsUnused(t: map<Handle, nat>, uid: int, h: Handle)
    requires forall o :: o in t ==> t[o] <= uid
    requires uid >= -1 && h !in t
    ensures forall o :: o in t ==> Decimal(t[o]) != Decimal(uid + 1)
  {
    forall o | o in t ensures Decimal(t[o]) != Decimal(uid + 1) {
      DecimalInjective(t[o], uid + 1);
    }
  }

  class MkrMap<V> {
    /** `_dict`: every value, under a string key or an object's tag text. */
    var dict: map<string, V>
    /** `_keys`: the object stored under each tag text. */
    var keys: map<string, Handle>
    /** The tags and counter shared by every map. */
    const table: TagTable

    constructor (table: TagTable)
      ensures this.table == table && dict == map[] && keys == map[]
    {
      this.table := table;
      dict := map[];
      keys := map[];
    }

    /** The `_dict` slot a key addresses; an object without a tag addresses none. */
    function Slot(key: Key): (slot: Option<string>)
      reads table
      ensures key.StrKey? ==> slot == Some(key.s)
      ensures key.ObjKey? ==> (slot.Some? <==> key.h in table.tags)
    {
      match key
      case StrKey(s) => Some(s)
      case ObjKey(h) => if h in table.tags then Some(Decimal(table.tags[h])) else None
    }

    /** `has(key)`. */
    predicate Has(key: Key)
      reads this, table
    {
      Slot(key).Some? && Slot(key).value in dict
    }

    /** `get(key)`: the value, or `undefined` when the key is absent. */
    function Get(key: Key): (r: JsVal<V>)
      reads this, table
      ensures r.Defined? <==> Has(key)
    {
      match Slot(key)
      case None => Undefined
      case Some(k) => if k in dict then Defined(dict[k]) else Undefined
    }

    /**
     * Every object in `_keys` is tagged with the slot it sits in, and has a
     * value. Deleting a string key that collides with a tag text, or deleting
     * the object through another map, breaks this.
     */
    ghost predicate Consistent()
      reads this, table
    {
      Tagged(keys, dict.Keys, table.tags)
    }

    /** The key `forEach` passes along with the value in slot `k`. */
    function ForEachKey(k: string): (key: Key)
      reads this
      ensures key.ObjKey? <==> k in keys
    {
      if k in keys then ObjKey(keys[k]) else StrKey(k)
    }

    /**
     * In a consistent map whose keys are all objects, an object is present
     * exactly when it is one of the stored objects, and it then addresses the
     * slot it is stored under.
     */
    lemma ObjectLookup(h: Handle)
      requires table.Valid() && Consistent() && dict.Keys == keys.Keys
      ensures Has(ObjKey(h)) <==> h in keys.Values
      ensures h in keys.Values ==> Slot(ObjKey(h)).Some? && Slot(ObjKey(h)).value in keys && keys[Slot(ObjKey(h)).value] == h
    {
      if h in keys.Values {
        var k :| k in keys && keys[k] == h;
        assert Slot(ObjKey(h)) == Some(k);
      }
      if Has(ObjKey(h)) {
        var k := Slot(ObjKey(h)).value;
        var o := keys[k];
        DecimalInjective(table.tags[o], table.tags[h]);
        assert o == h;
      }
    }

    /** `forEach` hands each value out with a key that retrieves it. */
    lemma ForEachKeyFindsValue(k: string)
      requires table.Valid() && Consistent() && k in dict
      ensures Get(ForEachKey(k)) == Defined(dict[k])
    {
    }

    /** `set(key, value)`: tag an untagged object, then store the value in its slot. */
    method Set(key: Key, value: V)
      requires table.Valid()
      modifies this, table
      ensures table.Valid()
      ensures Get(key) == Defined(value)
      ensures key.StrKey? ==> table.tags == old(table.tags) && table.uid == old(table.uid)
      ensures key.ObjKey? && key.h in old(table.tags) ==> table.tags == old(table.tags) && table.uid == old(table.uid)
      ensures key.ObjKey? && key.h !in old(table.tags) ==>
        table.uid == old(table.uid) + 1 && table.tags == old(table.tags)[key.h := table.uid]
      ensures Slot(key).Some? && dict == old(dict)[Slot(key).value := value]
      ensures keys == if key.ObjKey? then old(keys)[Slot(key).value := key.h] else old(keys)
    {
      match key
      case StrKey(s) =>
        dict := dict[s := value];
      case ObjKey(h) =>
        var id := table.Tag(h);
        keys := keys[Decimal(id) := h];
        dict := dict[Decimal(id) := value];
    }

    /**
     * `delete(key)`: remove the slot of the key; for an object also remove it
     * from `_keys` and strip its tag. Returns whether the key was present
     * (see `DeleteResultAsWritten` for what the code returns).
     */
    method Delete(key: Key) returns (flag: bool)
      requires table.Valid()
      modifies this, table
      ensures table.Valid() && table.uid == old(table.uid)
      ensures flag == old(Has(key))
      ensures !Has(key)
      ensures key.StrKey? ==> dict == old(dict) - {key.s} && keys == old(keys) && table.tags == old(table.tags)
      ensures key.ObjKey? && key.h !in old(table.tags) ==> dict == old(dict) && keys == old(keys) && table.tags == old(table.tags)
      ensures key.ObjKey? && key.h in old(table.tags) ==>
        var k := Decimal(old(table.tags)[key.h]);
        dict == old(dict) - {k} && keys == old(keys) - {k} && table.tags == old(table.tags) - {key.h}
      ensures key.ObjKey? && old(Consistent()) ==> Consistent() && keys.Values == old(keys.Values) - {key.h}
    {
      flag := Has(key);
      match key
      case StrKey(s) =>
        dict := dict - {s};
      case ObjKey(h) =>
        if h !in table.tags {
          assert Consistent() ==> forall a :: a in keys ==> keys[a] != h;
          return false;
        }
        var k := Decimal(table.tags[h]);
        if old(Consistent()) {
          RemoveKeepsTagged(keys, dict.Keys, table.tags, h);
        }
        keys := keys - {k};
        dict := dict - {k};
        table.Untag(h);
    }

    /**
     * `clear()`: walk the slots present at the start, skipping any deleted on
     * the way, and delete each through the key `forEach` would report. When the
     * map is consistent, nothing is left and every object's tag is stripped.
     */
    method Clear()
      requires table.Valid()
      modifies this, table
      ensures table.Valid()
      ensures old(Consistent()) ==> dict == map[] && keys == map[]
      ensures old(Consistent()) ==> forall h :: h in old(keys.Values) ==> h !in table.tags
    {
      var pending := dict.Keys;
      ghost var stripped: set<Handle> := {};
      while pending != {}
        invariant table.Valid()
        invariant old(Consistent()) ==> Consistent() && dict.Keys <= pending
        invariant old(Consistent()) ==> keys.Values + stripped == old(keys.Values)
        invariant old(Consistent()) ==> forall h :: h in stripped ==> h !in table.tags
        decreases pending
      {
        var k :| k in pending;
        pending := pending - {k};
        if k in dict {
          if k in keys {
            var h := keys[k];
            ghost var before := keys;
            var _ := Delete(ObjKey(h));
            if old(Consistent()) {
              KeysAfterDelete(before, k, h);
              stripped := stripped + {h};
            }
          } else {
            var _ := Delete(StrKey(k));
          }
        }
      }
    }
  }

  /** Every stored object has a value and is tagged with the text of the slot it sits in. */
  ghost predicate Tagged(keys: map<string, Handle>, slots: set<string>, tags: map<Handle, nat>) {
    forall k :: k in keys ==> k in slots && keys[k] in tags && Decimal(tags[keys[k]]) == k
  }

  /** No two objects share a tag. */
  ghost predicate TagsDistinct(tags: map<Handle, nat>) {
    forall a, b :: a in tags && b in tags && tags[a] == tags[b] ==> a == b
  }

  /** Storing an object under its (possibly new) tag keeps every object in its own slot. */
  lemma StoreKeepsTagged(keys: map<string, Handle>, tags: map<Handle, nat>, tags': map<Handle, nat>, id: nat, h: Handle)
    requires Tagged(keys, keys.Keys, tags) && TagsDistinct(tags')
    requires h in tags ==> tags' == tags
    requires h !in tags ==> tags' == tags[h := id]
    ensures h in tags'
    ensures var k := Decimal(tags'[h]);
      && (k in keys ==> keys[k] == h)
      && Tagged(keys[k := h], keys.Keys + {k}, tags')
      && keys[k := h].Values == keys.Values + {h}
  {
    var k := Decimal(tags'[h]);
    forall a | a in keys
      ensures keys[a] in tags' && tags'[keys[a]] == tags[keys[a]]
      ensures a == k ==> keys[a] == h
    {
      if h !in tags {
        assert keys[a] != h;
      }
      if a == k {
        DecimalInjective(tags'[keys[a]], tags'[h]);
      }
    }
    if k in keys {
      assert keys[k := h] == keys;
    }
  }

  /** Removing an object's slot from a consistent table removes just that object. */
  lemma RemoveKeepsTagged(keys: map<string, Handle>, slots: set<string>, tags: map<Handle, nat>, h: Handle)
    requires Tagged(keys, slots, tags) && TagsDistinct(tags) && h in tags
    ensures var k := Decimal(tags[h]);
      && Tagged(keys - {k}, slots - {k}, tags - {h})
      && (keys - {k}).Values == keys.Values - {h}
  {
    var k := Decimal(tags[h]);
    forall a | a in keys && a != k ensures keys[a] != h {
      DecimalInjective(tags[keys[a]], tags[h]);
    }
    forall x | x in keys.Values - {h} ensures x in (keys - {k}).Values {
      var a :| a in keys && keys[a] == x;
      if a == k {
        DecimalInjective(tags[x], tags[h]);
      }
      assert (keys - {k})[a] == x;
    }
  }

  /** Removing the slot of an object from a table in which every object has one slot removes that object. */
  lemma KeysAfterDelete(keys: map<string, Handle>, k: string, h: Handle)
    requires k in keys && keys[k] == h
    requires forall a, b :: a in keys && b in keys && keys[a] == keys[b] ==> a == b
    ensures (keys - {k}).Values + {h} == keys.Values
    ensures h !in (keys - {k}).Values
  {
    forall x | x in keys.Values ensures x in (keys - {k}).Values + {h} {
      var a :| a in keys && keys[a] == x;
      if a != k {
        assert (keys - {k})[a] == x;
      }
    }
  }

  /** What the code returns from `delete`: `false` for every string key, whatever was stored. */
  function DeleteResultAsWritten(key: Key, present: bool): (flag: bool)
    ensures key.StrKey? ==> !flag
    ensures key.ObjKey? ==> flag == present
  {
    if key.StrKey? then false else present
  }

  /** Deleting a present string key reports that nothing was there. */
  lemma StringDeleteReportsMissing()
    ensures DeleteResultAsWritten(StrKey("color"), true) != true
  {
  }
}
