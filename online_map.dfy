/**
 * The server's `onlineUsers` registry, a JavaScript `Map` from user id to
 * socket id, as the sequence of its entries in insertion order. `Put` and
 * `Delete` are `Map.prototype.set` and `Map.prototype.delete`, `Get` is
 * `Map.prototype.get` and `Keys` is `Array.from(map.keys())`.
 */
module OnlineMap {
  import opened Wrappers
  import opened Protocol

  datatype Entry = Entry(user: UserId, socket: SocketId)

  /** The user ids of the entries, in iteration order. */
  function Keys(es: seq<Entry>): (ks: seq<UserId>)
    ensures |ks| == |es|
    ensures forall i :: 0 <= i < |es| ==> ks[i] == es[i].user
  {
    if es == [] then [] else [es[0].user] + Keys(es[1..])
  }

  /** A `Map` never holds the same key twice. */
  ghost predicate UniqueKeys(es: seq<Entry>) {
    forall i, j :: 0 <= i < j < |es| ==> es[i].user != es[j].user
  }

  predicate NoDuplicates<T(==)>(s: seq<T>) {
    forall i, j :: 0 <= i < j < |s| ==> s[i] != s[j]
  }

  /** `map.get(u)`: the socket of the entry for `u`, if there is one. */
  function Get(es: seq<Entry>, u: UserId): (r: Option<SocketId>)
    ensures r.None? <==> u !in Keys(es)
    ensures r.Some? ==> Entry(u, r.value) in es
  {
    if es == [] then None
    else if es[0].user == u then Some(es[0].socket)
    else Get(es[1..], u)
  }

  /**
   * `map.set(u, s)`: an existing entry for `u` takes the new socket where it
   * stands; otherwise the new entry goes at the end.
   */
  function Put(es: seq<Entry>, u: UserId, s: SocketId): (r: seq<Entry>)
    ensures |r| == if u in Keys(es) then |es| else |es| + 1
  {
    if es == [] then [Entry(u, s)]
    else if es[0].user == u then [Entry(u, s)] + es[1..]
    else [es[0]] + Put(es[1..], u, s)
  }

  /** `map.delete(u)`: one entry fewer when `u` is a key, the same map otherwise. */
  function Delete(es: seq<Entry>, u: UserId): (r: seq<Entry>)
    ensures |r| == if u in Keys(es) then |es| - 1 else |es|
    ensures u !in Keys(es) ==> r == es
  {
    if es == [] then []
    else if es[0].user == u then es[1..]
    else [es[0]] + Delete(es[1..], u)
  }

  /** The position of the first entry, in iteration order, holding socket `sid`; `|es|` if none does. */
  function FirstOnSocket(es: seq<Entry>, sid: SocketId): (i: nat)
    ensures i <= |es|
    ensures forall k :: 0 <= k < i ==> es[k].socket != sid
    ensures i < |es| ==> es[i].socket == sid
  {
    if es == [] then 0
    else if es[0].socket == sid then 0
    else 1 + FirstOnSocket(es[1..], sid)
  }

  /** The registry once the first entry holding socket `sid` is gone. */
  function RemoveFirstOnSocket(es: seq<Entry>, sid: SocketId): seq<Entry> {
    if es == [] then []
    else if es[0].socket == sid then es[1..]
    else [es[0]] + RemoveFirstOnSocket(es[1..], sid)
  }

  // ---------------------------------------------------------------------
  // Map.set

  /** After `set(u, s)` the keys are the old ones, in place, with `u` added last if it was new. */
  lemma {:induction false} PutKeys(es: seq<Entry>, u: UserId, s: SocketId)
    ensures Keys(Put(es, u, s)) == if u in Keys(es) then Keys(es) else Keys(es) + [u]
  {
    if es != [] {
      var r := Put(es, u, s);
      if es[0].user == u {
        assert r[1..] == es[1..];
      } else {
        PutKeys(es[1..], u, s);
        assert r[1..] == Put(es[1..], u, s);
        assert u in Keys(es) <==> u in Keys(es[1..]);
      }
    }
  }

  /** A new key's entry goes at the end. */
  lemma {:induction false} PutAppendsNew(es: seq<Entry>, u: UserId, s: SocketId)
    requires u !in Keys(es)
    ensures Put(es, u, s) == es + [Entry(u, s)]
  {
    if es != [] {
      assert Keys(es) == [es[0].user] + Keys(es[1..]);
      PutAppendsNew(es[1..], u, s);
      assert es + [Entry(u, s)] == [es[0]] + (es[1..] + [Entry(u, s)]);
    }
  }

  /** Every entry of another key stays at its position, unchanged. */
  lemma {:induction false} PutKeepsOthers(es: seq<Entry>, u: UserId, s: SocketId)
    ensures forall i :: 0 <= i < |es| && es[i].user != u ==> Put(es, u, s)[i] == es[i]
  {
    if es != [] && es[0].user != u {
      var r := Put(es, u, s);
      PutKeepsOthers(es[1..], u, s);
      assert r == [es[0]] + Put(es[1..], u, s);
      forall i | 0 < i < |es| && es[i].user != u ensures r[i] == es[i] {
        assert es[1..][i - 1] == es[i];
      }
    }
  }

  /** After `set(u, s)`, `get(u)` is `s` and `get` of every other key is as before. */
  lemma {:induction false} PutGet(es: seq<Entry>, u: UserId, s: SocketId, v: UserId)
    ensures Get(Put(es, u, s), u) == Some(s)
    ensures v != u ==> Get(Put(es, u, s), v) == Get(es, v)
  {
    if es != [] {
      var r := Put(es, u, s);
      if es[0].user == u {
        assert r[1..] == es[1..];
      } else {
        PutGet(es[1..], u, s, v);
        assert r[1..] == Put(es[1..], u, s);
      }
    }
  }

  /** `set` never creates a second entry for a key. */
  lemma PutKeepsKeysUnique(es: seq<Entry>, u: UserId, s: SocketId)
    requires UniqueKeys(es)
    ensures UniqueKeys(Put(es, u, s))
  {
    PutKeys(es, u, s);
    var r := Put(es, u, s);
    assert NoDuplicates(Keys(es));
    forall i, j | 0 <= i < j < |r| ensures r[i].user != r[j].user {
      assert Keys(r)[i] == r[i].user && Keys(r)[j] == r[j].user;
    }
  }

  // ---------------------------------------------------------------------
  // Map.get

  /** With unique keys, `get(u)` is `s` exactly when the entry `(u, s)` is in the map. */
  lemma GetFindsEntry(es: seq<Entry>, u: UserId, s: SocketId)
    requires UniqueKeys(es)
    ensures Get(es, u) == Some(s) <==> Entry(u, s) in es
  {
  }

  // ---------------------------------------------------------------------
  // Map.delete and the disconnect scan

  /** With unique keys, deleting the key of the entry at `i` removes exactly that entry. */
  lemma {:induction false} DeleteAt(es: seq<Entry>, i: nat)
    requires UniqueKeys(es)
    requires i < |es|
    ensures Delete(es, es[i].user) == es[..i] + es[i + 1..]
  {
    if i > 0 {
      assert es[1..][i - 1] == es[i];
      DeleteAt(es[1..], i - 1);
      assert es[..i] + es[i + 1..] == [es[0]] + (es[1..][..i - 1] + es[1..][i..]);
    }
  }

  /**
   * Removing the first entry on socket `sid` takes out the entry at
   * `FirstOnSocket(es, sid)` and leaves all others, in order; when no entry
   * holds `sid` nothing changes.
   */
  lemma {:induction false} RemoveFirstOnSocketAt(es: seq<Entry>, sid: SocketId)
    ensures var i := FirstOnSocket(es, sid);
            RemoveFirstOnSocket(es, sid) == if i < |es| then es[..i] + es[i + 1..] else es
  {
    if es != [] && es[0].socket != sid {
      RemoveFirstOnSocketAt(es[1..], sid);
      var i := FirstOnSocket(es, sid);
      if i < |es| {
        assert es[..i] + es[i + 1..] == [es[0]] + (es[1..][..i - 1] + es[1..][i..]);
      }
    }
  }

  /** The registry loses at most one entry on a disconnect, and one exactly when some entry held the socket. */
  lemma RemoveFirstOnSocketSize(es: seq<Entry>, sid: SocketId)
    ensures |RemoveFirstOnSocket(es, sid)| == if FirstOnSocket(es, sid) < |es| then |es| - 1 else |es|
  {
    RemoveFirstOnSocketAt(es, sid);
  }

  /** The keys after removing the entry at `i` are the old keys without the one at `i`. */
  lemma KeysRemoveAt(es: seq<Entry>, i: nat)
    requires i < |es|
    ensures Keys(es[..i] + es[i + 1..]) == Keys(es)[..i] + Keys(es)[i + 1..]
  {
    var r := es[..i] + es[i + 1..];
    var ks := Keys(es)[..i] + Keys(es)[i + 1..];
    assert |Keys(r)| == |r| == |ks|;
    forall k | 0 <= k < |r| ensures Keys(r)[k] == ks[k] {
      if k < i {
        assert r[k] == es[k] && ks[k] == Keys(es)[k];
      } else {
        assert r[k] == es[k + 1] && ks[k] == Keys(es)[k + 1];
      }
    }
  }

  /** Removing one entry from a registry with unique keys leaves its keys unique. */
  lemma RemoveAtKeepsKeysUnique(es: seq<Entry>, i: nat)
    requires UniqueKeys(es)
    requires i < |es|
    ensures UniqueKeys(es[..i] + es[i + 1..])
  {
    var r := es[..i] + es[i + 1..];
    forall a, b | 0 <= a < b < |r| ensures r[a].user != r[b].user {
      var a' := if a < i then a else a + 1;
      var b' := if b < i then b else b + 1;
      assert r[a] == es[a'] && r[b] == es[b'];
    }
  }

  /** Removing the entry at `i` from a registry with unique keys removes its user from the keys. */
  lemma RemoveAtDropsUser(es: seq<Entry>, i: nat)
    requires UniqueKeys(es)
    requires i < |es|
    ensures es[i].user !in Keys(es[..i] + es[i + 1..])
  {
  }

  /**
   * With unique keys, the disconnect keeps the keys unique, the user whose
   * entry it removed is no longer a key, and every other key keeps its
   * relative order.
   */
  lemma RemoveFirstOnSocketKeys(es: seq<Entry>, sid: SocketId)
    requires UniqueKeys(es)
    ensures UniqueKeys(RemoveFirstOnSocket(es, sid))
    ensures var i := FirstOnSocket(es, sid);
            && Keys(RemoveFirstOnSocket(es, sid)) == (if i < |es| then Keys(es)[..i] + Keys(es)[i + 1..] else Keys(es))
            && (i < |es| ==> es[i].user !in Keys(RemoveFirstOnSocket(es, sid)))
  {
    RemoveFirstOnSocketAt(es, sid);
    var i := FirstOnSocket(es, sid);
    if i < |es| {
      RemoveAtKeepsKeysUnique(es, i);
      RemoveAtDropsUser(es, i);
      KeysRemoveAt(es, i);
    }
  }

  /**
   * Only the first entry on the socket goes: a later entry on the same
   * socket (one connection that announced two users) stays registered.
   */
  lemma DisconnectLeavesLaterEntries(es: seq<Entry>, sid: SocketId, j: nat)
    requires j < |es| && es[j].socket == sid
    requires FirstOnSocket(es, sid) < j
    ensures es[j] in RemoveFirstOnSocket(es, sid)
  {
    RemoveFirstOnSocketAt(es, sid);
    var i := FirstOnSocket(es, sid);
    assert (es[..i] + es[i + 1..])[j - 1] == es[j];
  }
  /**
   * `set` overwrites silently: when user `u`, already online, announces a new
   * connection `b` (a second tab), closing `b` removes `u`'s only entry, so
   * `u` is no longer a key although its first connection is still open.
   */
  lemma OverwrittenTabGoesOffline(es: seq<Entry>, u: UserId, b: SocketId)
    requires UniqueKeys(es)
    requires u in Keys(es)
    requires forall k :: 0 <= k < |es| ==> es[k].socket != b
    ensures u !in Keys(RemoveFirstOnSocket(Put(es, u, b), b))
  {
    var r := Put(es, u, b);
    PutKeys(es, u, b);
    PutKeepsOthers(es, u, b);
    PutKeepsKeysUnique(es, u, b);
    PutGet(es, u, b, u);
    var q :| 0 <= q < |r| && r[q] == Entry(u, b);
    forall k | 0 <= k < |r| && k != q ensures r[k].socket != b {
      assert Keys(r)[k] == r[k].user && Keys(es)[k] == es[k].user;
      assert es[k].user != u;
    }
    assert FirstOnSocket(r, b) == q;
    RemoveFirstOnSocketKeys(r, b);
  }
}
