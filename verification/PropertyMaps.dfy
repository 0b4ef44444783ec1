/** The MAP of message properties as the modules change it: keys in insertion order, each once. */
module PropertyMaps {
  import opened Bytes
  import opened Messages

  /** ConstMap_GetValue */
  function Get(ps: seq<Property>, key: CString): Option<CString> {
    if ps == [] then None else if ps[0].key == key then Some(ps[0].value) else Get(ps[1..], key)
  }

  /** Map_AddOrUpdate: a key that is there keeps its place, a new one goes to the end. */
  function Put(ps: seq<Property>, key: CString, value: CString): seq<Property> {
    if ps == [] then [Property(key, value)]
    else if ps[0].key == key then [Property(key, value)] + ps[1..]
    else [ps[0]] + Put(ps[1..], key, value)
  }

  /** Map_Delete; it fails on a key that is not there. */
  function Delete(ps: seq<Property>, key: CString): seq<Property> {
    if ps == [] then [] else if ps[0].key == key then ps[1..] else [ps[0]] + Delete(ps[1..], key)
  }

  lemma {:induction false} GetIffHasKey(ps: seq<Property>, key: CString)
    ensures Get(ps, key).Some? <==> HasKey(ps, key)
    ensures Get(ps, key).Some? ==> Property(key, Get(ps, key).value) in ps
  {
    if ps != [] {
      GetIffHasKey(ps[1..], key);
      if HasKey(ps[1..], key) {
        var i :| 0 <= i < |ps[1..]| && ps[1..][i].key == key;
        assert ps[i + 1].key == key;
      }
      if HasKey(ps, key) && ps[0].key != key {
        var i :| 0 <= i < |ps| && ps[i].key == key;
        assert ps[1..][i - 1].key == key;
      }
    }
  }

  lemma {:induction false} PutKeys(ps: seq<Property>, key: CString, value: CString, p: Property)
    ensures p in Put(ps, key, value) ==> p.key == key || p in ps
  {
    if ps != [] && ps[0].key != key {
      PutKeys(ps[1..], key, value, p);
    }
  }

  lemma {:induction false} DeleteKeys(ps: seq<Property>, key: CString, p: Property)
    ensures p in Delete(ps, key) ==> p in ps
  {
    if ps != [] && ps[0].key != key {
      DeleteKeys(ps[1..], key, p);
    }
  }

  lemma UniqueCons(p: Property, ps: seq<Property>)
    ensures UniqueKeys([p] + ps) <==> UniqueKeys(ps) && forall q :: q in ps ==> q.key != p.key
  {
    var all := [p] + ps;
    assert forall i :: 0 <= i < |ps| ==> all[i + 1] == ps[i];
    if UniqueKeys(all) {
      forall i, j | 0 <= i < j < |ps| ensures ps[i].key != ps[j].key {
        assert all[i + 1].key != all[j + 1].key;
      }
      forall q | q in ps ensures q.key != p.key {
        var i :| 0 <= i < |ps| && ps[i] == q;
        assert all[0].key != all[i + 1].key;
      }
    }
  }

  /** Putting a key sets it, leaves the others alone and keeps keys unique. */
  lemma {:induction false} PutLaws(ps: seq<Property>, key: CString, value: CString)
    ensures Get(Put(ps, key, value), key) == Some(value)
    ensures forall k :: k != key ==> Get(Put(ps, key, value), k) == Get(ps, k)
    ensures UniqueKeys(ps) ==> UniqueKeys(Put(ps, key, value))
  {
    if ps != [] {
      var rest := ps[1..];
      assert ps == [ps[0]] + rest;
      UniqueCons(ps[0], rest);
      UniqueCons(Property(key, value), rest);
      UniqueCons(ps[0], Put(rest, key, value));
      PutLaws(rest, key, value);
      forall q | q in Put(rest, key, value) ensures q.key == key || q in rest {
        PutKeys(rest, key, value, q);
      }
    }
  }

  /** Deleting a key removes it, leaves the others alone and keeps keys unique. */
  lemma {:induction false} DeleteLaws(ps: seq<Property>, key: CString)
    requires UniqueKeys(ps)
    ensures Get(Delete(ps, key), key) == None
    ensures forall k :: k != key ==> Get(Delete(ps, key), k) == Get(ps, k)
    ensures UniqueKeys(Delete(ps, key))
  {
    if ps != [] {
      var rest := ps[1..];
      assert ps == [ps[0]] + rest;
      UniqueCons(ps[0], rest);
      UniqueCons(ps[0], Delete(rest, key));
      DeleteLaws(rest, key);
      GetIffHasKey(rest, ps[0].key);
      forall q | q in Delete(rest, key) ensures q in rest {
        DeleteKeys(rest, key, q);
      }
    }
  }

  /** The first property with the key stands at i. */
  predicate FirstAt(ps: seq<Property>, key: CString, i: nat) {
    i < |ps| && ps[i].key == key && forall j :: 0 <= j < i ==> ps[j].key != key
  }

  lemma FirstAtTail(ps: seq<Property>, key: CString, i: nat)
    requires FirstAt(ps, key, i) && i > 0
    ensures FirstAt(ps[1..], key, i - 1)
  {
  }

  /** A key that is there keeps its place, and so do all others. */
  lemma {:induction false} PutInPlace(ps: seq<Property>, key: CString, value: CString, i: nat)
    requires FirstAt(ps, key, i)
    ensures Put(ps, key, value) == ps[..i] + [Property(key, value)] + ps[i + 1..]
  {
    if i > 0 {
      FirstAtTail(ps, key, i);
      PutInPlace(ps[1..], key, value, i - 1);
      assert ps[..i] == [ps[0]] + ps[1..][..i - 1] && ps[1..][i..] == ps[i + 1..];
    }
  }

  /** A new key goes to the end. */
  lemma {:induction false} PutAtEnd(ps: seq<Property>, key: CString, value: CString)
    requires !HasKey(ps, key)
    ensures Put(ps, key, value) == ps + [Property(key, value)]
  {
    if ps != [] {
      assert forall i :: 0 <= i < |ps[1..]| ==> ps[1..][i] == ps[i + 1];
      PutAtEnd(ps[1..], key, value);
      assert ps == [ps[0]] + ps[1..];
    }
  }

  /** The property is taken out, and the others keep their order. */
  lemma {:induction false} DeleteAt(ps: seq<Property>, key: CString, i: nat)
    requires FirstAt(ps, key, i)
    ensures Delete(ps, key) == ps[..i] + ps[i + 1..]
  {
    if i > 0 {
      FirstAtTail(ps, key, i);
      DeleteAt(ps[1..], key, i - 1);
      assert ps[..i] == [ps[0]] + ps[1..][..i - 1] && ps[1..][i..] == ps[i + 1..];
    }
  }
}
