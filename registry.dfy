/**
 * The room's `Map<WebSocket, User>`: an insertion-ordered map kept as a sequence of
 * entries. `Set` overwrites in place or appends, `Delete` removes the entry, and
 * iteration (`Keys`, `Values`) follows insertion order.
 */
module Registry {
  import opened Wrappers
  import opened RoomTypes

  type Entries = seq<(Conn, User)>

  /** The sockets in insertion order (`map.keys()`). */
  function Keys(e: Entries): seq<Conn>
  {
    seq(|e|, i requires 0 <= i < |e| => e[i].0)
  }

  /** The users in insertion order (`map.values()`). */
  function Values(e: Entries): seq<User>
  {
    seq(|e|, i requires 0 <= i < |e| => e[i].1)
  }

  predicate Distinct(ks: seq<Conn>)
  {
    forall i, j :: 0 <= i < j < |ks| ==> ks[i] != ks[j]
  }

  lemma KeysCons(e: Entries)
    requires e != []
    ensures Keys(e) == [e[0].0] + Keys(e[1..])
    ensures Values(e) == [e[0].1] + Values(e[1..])
  {
  }

  /** Position of the entry for `c`. */
  function IndexOf(e: Entries, c: Conn): (k: nat)
    requires c in Keys(e)
    ensures k < |e| && e[k].0 == c
    ensures forall j :: 0 <= j < k ==> e[j].0 != c
  {
    KeysCons(e);
    if e[0].0 == c then 0 else 1 + IndexOf(e[1..], c)
  }

  /** `map.get(c)`. */
  function Get(e: Entries, c: Conn): (r: Option<User>)
    ensures r.None? <==> forall i :: 0 <= i < |e| ==> e[i].0 != c
    ensures r.Some? ==> (c, r.value) in e
  {
    if c in Keys(e) then
      assert e[IndexOf(e, c)] == (c, e[IndexOf(e, c)].1);
      Some(e[IndexOf(e, c)].1)
    else
      assert forall i :: 0 <= i < |e| ==> Keys(e)[i] == e[i].0;
      None
  }

  /** With distinct keys, `get` gives `u` exactly when the map holds the entry `(c, u)`. */
  lemma GetFindsEntry(e: Entries, c: Conn, u: User)
    requires Distinct(Keys(e))
    ensures Get(e, c) == Some(u) <==> (c, u) in e
  {
    if (c, u) in e {
      var k :| 0 <= k < |e| && e[k] == (c, u);
      GetAt(e, k);
    }
  }

  /** `map.set(c, u)`: a present key keeps its position, a new key goes last. */
  function Set(e: Entries, c: Conn, u: User): (r: Entries)
    ensures (c, u) in r
    ensures |r| == if c in Keys(e) then |e| else |e| + 1
  {
    if c in Keys(e) then
      var r := e[IndexOf(e, c) := (c, u)];
      assert r[IndexOf(e, c)] == (c, u);
      r
    else
      var r := e + [(c, u)];
      assert r[|e|] == (c, u);
      r
  }

  /** `map.delete(c)`: the entry for `c` goes, the others keep their order. */
  function Delete(e: Entries, c: Conn): (r: Entries)
    ensures |r| == if c in Keys(e) then |e| - 1 else |e|
    ensures multiset(r) <= multiset(e)
  {
    if c in Keys(e) then
      var k := IndexOf(e, c);
      assert e == e[..k] + [e[k]] + e[k + 1..];
      e[..k] + e[k + 1..]
    else e
  }

  /** With distinct keys, the entry at position `k` is what `Get` finds for its key. */
  lemma GetAt(e: Entries, k: nat)
    requires Distinct(Keys(e)) && k < |e|
    ensures Get(e, e[k].0) == Some(e[k].1)
  {
    assert Keys(e)[k] == e[k].0;
    var j := IndexOf(e, e[k].0);
    assert Keys(e)[j] == Keys(e)[k];
  }

  /** With distinct keys, `Set` keeps the keys distinct, binds `c` to `u`, leaves the other
      keys' bindings alone, keeps a present key in place and appends a new one. */
  lemma SetSpec(e: Entries, c: Conn, u: User)
    ensures Distinct(Keys(e)) ==>
      && Distinct(Keys(Set(e, c, u)))
      && Get(Set(e, c, u), c) == Some(u)
      && (forall d :: d != c ==> Get(Set(e, c, u), d) == Get(e, d))
      && (c in Keys(e) ==> Keys(Set(e, c, u)) == Keys(e))
      && (c !in Keys(e) ==> Keys(Set(e, c, u)) == Keys(e) + [c])
  {
    if !Distinct(Keys(e)) { return; }
    var r := Set(e, c, u);
    var pos := if c in Keys(e) then IndexOf(e, c) else |e|;
    if c in Keys(e) {
      assert Keys(r) == Keys(e);
    } else {
      assert Keys(r) == Keys(e) + [c];
    }
    assert r[pos] == (c, u);
    GetAt(r, pos);
    forall d | d != c
      ensures Get(r, d) == Get(e, d)
    {
      if d in Keys(e) {
        var j := IndexOf(e, d);
        assert r[j] == e[j];
        GetAt(r, j);
        GetAt(e, j);
      } else {
        assert d !in Keys(r);
      }
    }
  }

  /** Removing position `k`: the entries before it stay, the ones after move down by one. */
  lemma RemovedAt<T>(e: seq<T>, k: nat, r: seq<T>)
    requires k < |e| && r == e[..k] + e[k + 1..]
    ensures |r| == |e| - 1
    ensures forall i :: 0 <= i < k ==> r[i] == e[i]
    ensures forall i :: k <= i < |r| ==> r[i] == e[i + 1]
  {
    forall i | k <= i < |r| ensures r[i] == e[i + 1] {
      assert r[i] == e[k + 1..][i - k];
    }
  }

  /** With distinct keys, deleting a present key leaves distinct keys without it. */
  lemma DeletedKeys(e: Entries, c: Conn)
    requires Distinct(Keys(e)) && c in Keys(e)
    ensures Distinct(Keys(Delete(e, c))) && c !in Keys(Delete(e, c))
  {
    var k := IndexOf(e, c);
    var r := Delete(e, c);
    RemovedAt(e, k, r);
    var ks, kr := Keys(e), Keys(r);
    forall i, j | 0 <= i < j < |kr|
      ensures kr[i] != kr[j]
    {
      var i', j' := if i < k then i else i + 1, if j < k then j else j + 1;
      assert kr[i] == ks[i'] && kr[j] == ks[j'] && i' < j';
    }
    forall i | 0 <= i < |kr|
      ensures kr[i] != c
    {
      var i' := if i < k then i else i + 1;
      assert kr[i] == ks[i'] && ks[k] == c;
      if i' < k { assert ks[i'] != ks[k]; } else { assert ks[k] != ks[i']; }
    }
  }

  /** With distinct keys, deleting `c` keeps the binding of another key that is present. */
  lemma DeletedOtherPresent(e: Entries, c: Conn, d: Conn)
    requires Distinct(Keys(e)) && c in Keys(e) && d in Keys(e) && d != c
    ensures Get(Delete(e, c), d) == Get(e, d)
  {
    var k, j := IndexOf(e, c), IndexOf(e, d);
    var r := e[..k] + e[k + 1..];
    RemovedAt(e, k, r);
    DeletedKeys(e, c);
    var jr := if j < k then j else j - 1;
    assert r[jr] == e[j];
    GetAt(r, jr);
    GetAt(e, j);
  }

  /** Deleting `c` does not bring in a key that was absent. */
  lemma DeletedOtherAbsent(e: Entries, c: Conn, d: Conn)
    requires c in Keys(e) && d !in Keys(e)
    ensures d !in Keys(Delete(e, c))
  {
    var k := IndexOf(e, c);
    var r := e[..k] + e[k + 1..];
    RemovedAt(e, k, r);
    var ks, kr := Keys(e), Keys(r);
    forall i | 0 <= i < |kr|
      ensures kr[i] != d
    {
      var i' := if i < k then i else i + 1;
      assert kr[i] == ks[i'];
    }
  }

  /** With distinct keys, `Delete` removes `c` only, keeps the keys distinct, and a second
      delete changes nothing. */
  lemma DeleteSpec(e: Entries, c: Conn)
    ensures Distinct(Keys(e)) ==>
      && Distinct(Keys(Delete(e, c)))
      && c !in Keys(Delete(e, c))
      && (forall d :: d != c ==> Get(Delete(e, c), d) == Get(e, d))
      && Delete(Delete(e, c), c) == Delete(e, c)
  {
    if Distinct(Keys(e)) && c in Keys(e) {
      DeletedKeys(e, c);
      forall d | d != c
        ensures Get(Delete(e, c), d) == Get(e, d)
      {
        if d in Keys(e) {
          DeletedOtherPresent(e, c, d);
        } else {
          DeletedOtherAbsent(e, c, d);
        }
      }
    }
  }

  lemma ValuesSet(e: Entries, c: Conn, u: User)
    ensures c in Keys(e) ==> Values(Set(e, c, u)) == Values(e)[IndexOf(e, c) := u]
    ensures c !in Keys(e) ==> Values(Set(e, c, u)) == Values(e) + [u]
  {
  }

  lemma ValuesDelete(e: Entries, c: Conn)
    ensures c in Keys(e) ==>
      Values(Delete(e, c)) == Values(e)[..IndexOf(e, c)] + Values(e)[IndexOf(e, c) + 1..]
    ensures c !in Keys(e) ==> Values(Delete(e, c)) == Values(e)
  {
    if c in Keys(e) {
      var k := IndexOf(e, c);
      var r, v := e[..k] + e[k + 1..], Values(e);
      var w := v[..k] + v[k + 1..];
      RemovedAt(e, k, r);
      RemovedAt(v, k, w);
      assert Values(r) == w;
    }
  }
}
