/** The queries the server runs against the message collection, as functions
    of the collection's contents: MongoDB filter documents, `find`,
    `deleteMany`, and the history listing
    `find({ roomCode }).sort({ timestamp: 1 }).limit(100)`. */
module MessageQuery {
  import opened Protocol

  /** The `.limit(100)` of every history listing. */
  const HistoryLimit: nat := 100

  /** A filter document over messages. */
  datatype Query =
    | InRoom(code: string)                          // { roomCode: code }
    | IdsInRoom(ids: seq<MessageId>, code: string)  // { _id: { $in: ids }, roomCode: code }
    | OlderThan(cutoff: int)                        // { timestamp: { $lt: cutoff } }

  predicate Matches(q: Query, m: Message)
  {
    match q
    case InRoom(code) => m.roomCode == code
    case IdsInRoom(ids, code) => m.id in ids && m.roomCode == code
    case OlderThan(cutoff) => m.timestamp < cutoff
  }

  /** `find(q)` without sorting: the matching messages, in collection order. */
  function Find(s: seq<Message>, q: Query): (r: seq<Message>)
    ensures forall m :: m in r <==> m in s && Matches(q, m)
    ensures |r| <= |s|
  {
    if s == [] then []
    else (if Matches(q, s[0]) then [s[0]] else []) + Find(s[1..], q)
  }

  /** `deleteMany(q)`: the collection without the matching messages, the
      others kept in their order. */
  function DeleteMany(s: seq<Message>, q: Query): (r: seq<Message>)
    ensures forall m :: m in r <==> m in s && !Matches(q, m)
    ensures |r| <= |s|
  {
    if s == [] then []
    else (if Matches(q, s[0]) then [] else [s[0]]) + DeleteMany(s[1..], q)
  }

  /** `deleteMany(q)` removes exactly what `find(q)` finds: the two split the
      collection, so the deleted count is the number of matching messages. */
  lemma {:induction false} DeleteManySplits(s: seq<Message>, q: Query)
    ensures multiset(Find(s, q)) + multiset(DeleteMany(s, q)) == multiset(s)
    ensures |s| - |DeleteMany(s, q)| == |Find(s, q)|
  {
    if s != [] {
      DeleteManySplits(s[1..], q);
      assert s == [s[0]] + s[1..];
    }
  }

  /** Queries no message satisfies both of. */
  ghost predicate Disjoint(q: Query, p: Query)
  {
    forall m :: Matches(q, m) ==> !Matches(p, m)
  }

  /** Deleting with `q` leaves what a disjoint query `p` finds untouched,
      contents and order: another room's history is the same afterwards. */
  lemma {:induction false} DeleteManyKeepsDisjoint(s: seq<Message>, q: Query, p: Query)
    requires Disjoint(q, p)
    ensures Find(DeleteMany(s, q), p) == Find(s, p)
  {
    if s != [] {
      DeleteManyKeepsDisjoint(s[1..], q, p);
      var head := if Matches(q, s[0]) then [] else [s[0]];
      FindAppend(head, DeleteMany(s[1..], q), p);
    }
  }

  /** `find` distributes over concatenation. */
  lemma {:induction false} FindAppend(a: seq<Message>, b: seq<Message>, q: Query)
    ensures Find(a + b, q) == Find(a, q) + Find(b, q)
  {
    if a == [] {
      assert a + b == b;
    } else {
      assert (a + b)[1..] == a[1..] + b;
      FindAppend(a[1..], b, q);
    }
  }

  /** A query that matches no message of the collection deletes nothing. */
  lemma {:induction false} DeleteManyNoMatch(s: seq<Message>, q: Query)
    requires forall m :: m in s ==> !Matches(q, m)
    ensures DeleteMany(s, q) == s
  {
    if s != [] {
      DeleteManyNoMatch(s[1..], q);
    }
  }

  /** Ids strictly increase along the collection (each insert gets a fresh,
      larger id), so no two stored messages share an id. */
  predicate IdsIncreasing(s: seq<Message>)
  {
    forall i, j :: 0 <= i < j < |s| ==> s[i].id < s[j].id
  }

  lemma {:induction false} DeleteManyKeepsIdsIncreasing(s: seq<Message>, q: Query)
    requires IdsIncreasing(s)
    ensures IdsIncreasing(DeleteMany(s, q))
  {
    if s != [] {
      DeleteManyKeepsIdsIncreasing(s[1..], q);
      var rest := DeleteMany(s[1..], q);
      forall j | 0 <= j < |rest|
        ensures s[0].id < rest[j].id
      {
        assert rest[j] in s[1..];
      }
    }
  }

  predicate SortedByTime(s: seq<Message>)
  {
    forall i, j :: 0 <= i < j < |s| ==> s[i].timestamp <= s[j].timestamp
  }

  /** The head of a time-sorted sequence is no later than any of its messages. */
  lemma HeadIsEarliest(s: seq<Message>)
    requires SortedByTime(s)
    ensures s != [] ==> forall y :: y in s ==> s[0].timestamp <= y.timestamp
  {
    forall y | y in s
      ensures s[0].timestamp <= y.timestamp
    {
      var j :| 0 <= j < |s| && s[j] == y;
    }
  }

  /** A message no later than any of a sorted sequence can go in front. */
  lemma SortedCons(x: Message, t: seq<Message>)
    requires SortedByTime(t)
    requires forall y :: y in t ==> x.timestamp <= y.timestamp
    ensures SortedByTime([x] + t)
  {
    forall i, j | 0 <= i < j < |[x] + t|
      ensures ([x] + t)[i].timestamp <= ([x] + t)[j].timestamp
    {
      if i == 0 {
        assert ([x] + t)[j] in t;
      }
    }
  }

  /** Inserts `m` before the first later message of a time-sorted sequence. */
  function InsertByTime(m: Message, s: seq<Message>): (r: seq<Message>)
    requires SortedByTime(s)
    ensures SortedByTime(r)
    ensures multiset(r) == multiset(s) + multiset{m}
    ensures forall x :: x in r ==> x in s || x == m
  {
    if s == [] || m.timestamp <= s[0].timestamp then
      HeadIsEarliest(s);
      SortedCons(m, s);
      [m] + s
    else
      var rest := InsertByTime(m, s[1..]);
      InsertBehindHead(m, s, rest);
      [s[0]] + rest
  }

  /** The step of `InsertByTime` that keeps the head of `s` in front. */
  lemma InsertBehindHead(m: Message, s: seq<Message>, rest: seq<Message>)
    requires SortedByTime(s) && s != [] && s[0].timestamp < m.timestamp
    requires SortedByTime(rest)
    requires multiset(rest) == multiset(s[1..]) + multiset{m}
    requires forall x :: x in rest ==> x in s[1..] || x == m
    ensures SortedByTime([s[0]] + rest)
    ensures multiset([s[0]] + rest) == multiset(s) + multiset{m}
    ensures forall x :: x in [s[0]] + rest ==> x in s || x == m
  {
    assert s == [s[0]] + s[1..];
    HeadIsEarliest(s);
    SortedCons(s[0], rest);
  }

  /** `.sort({ timestamp: 1 })`: ascending by timestamp, a permutation of the
      input. */
  function SortByTime(s: seq<Message>): (r: seq<Message>)
    ensures SortedByTime(r)
    ensures multiset(r) == multiset(s)
  {
    if s == [] then []
    else
      assert s == [s[0]] + s[1..];
      InsertByTime(s[0], SortByTime(s[1..]))
  }

  /** `r` is drawn from `pool` and none of its messages is later than a
      message of `pool` that `r` leaves out. */
  ghost predicate OldestOf(r: seq<Message>, pool: multiset<Message>)
  {
    && multiset(r) <= pool
    && forall m, x :: m in r && x in pool - multiset(r) ==> m.timestamp <= x.timestamp
  }

  /** In a time-sorted sequence, every message before index `k` is no later
      than every message from `k` on. */
  lemma SortedSplit(t: seq<Message>, k: nat)
    requires SortedByTime(t) && k <= |t|
    ensures forall m, x :: m in t[..k] && x in t[k..] ==> m.timestamp <= x.timestamp
  {
    forall m, x | m in t[..k] && x in t[k..]
      ensures m.timestamp <= x.timestamp
    {
      var i :| 0 <= i < k && t[..k][i] == m;
      var j :| 0 <= j < |t| - k && t[k..][j] == x;
      assert t[i] == m && t[k + j] == x;
    }
  }

  /** A prefix of a time-sorted sequence holds its oldest messages. */
  lemma SortedPrefixIsOldest(t: seq<Message>, k: nat)
    requires SortedByTime(t)
    requires k <= |t|
    ensures OldestOf(t[..k], multiset(t))
  {
    assert t == t[..k] + t[k..];
    assert multiset(t) - multiset(t[..k]) == multiset(t[k..]);
    SortedSplit(t, k);
  }

  /** What a sub-multiset of `find(InRoom(code))` holds is in the room. */
  lemma PrefixFromPool(r: seq<Message>, found: seq<Message>)
    requires multiset(r) <= multiset(found)
    ensures forall m :: m in r ==> m in found
  {
    forall m | m in r
      ensures m in found
    {
      assert m in multiset(r);
    }
  }

  /** `find({ roomCode: code }).sort({ timestamp: 1 }).limit(100)`: the oldest
      hundred messages of the room, oldest first. */
  function ListRecent(s: seq<Message>, code: string): (r: seq<Message>)
    ensures forall m :: m in r ==> m in s && m.roomCode == code
    ensures SortedByTime(r)
    ensures |r| == if |Find(s, InRoom(code))| <= HistoryLimit then |Find(s, InRoom(code))| else HistoryLimit
    ensures OldestOf(r, multiset(Find(s, InRoom(code))))
  {
    var found := Find(s, InRoom(code));
    var sorted := SortByTime(found);
    assert |sorted| == |found| by {
      assert |multiset(sorted)| == |multiset(found)|;
    }
    var k := if |sorted| <= HistoryLimit then |sorted| else HistoryLimit;
    SortedPrefixIsOldest(sorted, k);
    PrefixFromPool(sorted[..k], found);
    sorted[..k]
  }

  /** The listing of a room with no messages (or no such room) is empty. */
  lemma ListRecentOfEmptyRoom(s: seq<Message>, code: string)
    requires forall m :: m in s ==> m.roomCode != code
    ensures ListRecent(s, code) == []
  {
    assert Find(s, InRoom(code)) == [] by {
      if Find(s, InRoom(code)) != [] {
        assert Find(s, InRoom(code))[0] in Find(s, InRoom(code));
      }
    }
  }
}
