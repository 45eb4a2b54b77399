/**
 * The stored records of the chat backend, shaped by its Mongoose schemas:
 * users, and chat messages with their sender and receiver populated, and
 * ordering of query results by creation time.
 */
module ChatStore {

  /** A MongoDB `ObjectId`, as its hex string. */
  type ObjectId = string

  /** A user document as `populate` returns it (the password is never selected). */
  datatype User = User(id: ObjectId, username: string, email: string, online: bool)

  /** The `chatType` enum; the schema's default is `Text`. */
  datatype ChatType = Text | Image | File

  /**
   * A chat document. `seen` defaults to false; `createdAt` is the timestamp
   * Mongoose adds, in milliseconds.
   */
  datatype Chat = Chat(
    id: ObjectId,
    sender: User,
    receiver: User,
    message: string,
    chatType: ChatType,
    seen: bool,
    createdAt: int)

  /** `sort({ createdAt: 1 })` or `sort({ createdAt: -1 })`. */
  datatype Order = Ascending | Descending

  predicate InOrder(a: Chat, b: Chat, order: Order) {
    match order
    case Ascending => a.createdAt <= b.createdAt
    case Descending => a.createdAt >= b.createdAt
  }

  ghost predicate SortedBy(s: seq<Chat>, order: Order) {
    forall i, j :: 0 <= i < j < |s| ==> InOrder(s[i], s[j], order)
  }

  /** Put `c` before the first chat of `s` it may precede. */
  function Insert(c: Chat, s: seq<Chat>, order: Order): (r: seq<Chat>)
    ensures multiset(r) == multiset(s) + multiset{c}
  {
    if s == [] then [c]
    else if InOrder(c, s[0], order) then [c] + s
    else
      assert s == [s[0]] + s[1..];
      [s[0]] + Insert(c, s[1..], order)
  }

  /** Inserting into a sorted sequence keeps it sorted. */
  lemma {:induction false} InsertSorted(c: Chat, s: seq<Chat>, order: Order)
    requires SortedBy(s, order)
    ensures SortedBy(Insert(c, s, order), order)
  {
    if s != [] && !InOrder(c, s[0], order) {
      var rest := Insert(c, s[1..], order);
      InsertSorted(c, s[1..], order);
      forall j | 0 <= j < |rest| ensures InOrder(s[0], rest[j], order) {
        assert rest[j] in multiset(rest);
        if rest[j] != c {
          assert rest[j] in multiset(s[1..]);
          var k :| 0 <= k < |s[1..]| && s[1..][k] == rest[j];
          assert s[k + 1] == rest[j];
        }
      }
      var r := [s[0]] + rest;
      forall a, b | 0 <= a < b < |r| ensures InOrder(r[a], r[b], order) {
        if a > 0 {
          assert r[a] == rest[a - 1] && r[b] == rest[b - 1];
        } else {
          assert r[b] == rest[b - 1];
        }
      }
    }
  }

  /**
   * The query's sort, as a stable insertion sort: the result is ordered by
   * creation time and holds exactly the chats of `s`.
   */
  function SortByCreatedAt(s: seq<Chat>, order: Order): (r: seq<Chat>)
    ensures SortedBy(r, order)
    ensures multiset(r) == multiset(s)
  {
    if s == [] then []
    else
      assert s == [s[0]] + s[1..];
      var rest := SortByCreatedAt(s[1..], order);
      InsertSorted(s[0], rest, order);
      Insert(s[0], rest, order)
  }
}
