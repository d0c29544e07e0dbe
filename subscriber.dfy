/** The subscriber repository: the `subscribers` table, the lookups by owner and
    by tag, and the field check on a subscription. */
module Subscribers {
  import opened Base
  import opened Validator

  /** The record the lookups return. `email` is not a column of the table: only
      the lookup by tag fills it, from the owning user's row. */
  datatype Subscriber = Subscriber(id: int, userId: int, email: Text, tag: Text, createdAt: int)

  /** A row of the `subscribers` table; its `id` is the key it is stored under. */
  datatype SubscriberRow = SubscriberRow(userId: int, tag: Text, createdAt: int)

  /** The `users` table this layer joins against but does not own: id to email. */
  type Users = map<int, Text>

  /** The store's full text match `to_tsvector('simple', document) @@
      plainto_tsquery('simple', query)`, taken as given: (query, document). */
  type TagMatch = (Text, Text) -> bool

  const MaxTagBytes := 500

  /** The two checks of `ValidateSubscriber`, in order. */
  function ValidateSubscriber(s: Subscriber): seq<Violation> {
    var f := Check([], s.tag != [], "tag", "must be provided");
    Check(f, |s.tag| <= MaxTagBytes, "tag", "must not be more than 500 bytes long")
  }

  /** A subscription validates exactly when its tag has 1 to 500 bytes, and an
      invalid one is refused with a single message that says why. */
  lemma ValidateSubscriberAccepts(s: Subscriber)
    ensures ValidateSubscriber(s) == [] <==> 0 < |s.tag| <= MaxTagBytes
    ensures s.tag == [] ==> ValidateSubscriber(s) == [Violation("tag", "must be provided")]
    ensures |s.tag| > MaxTagBytes ==>
              ValidateSubscriber(s) == [Violation("tag", "must not be more than 500 bytes long")]
  {
  }

  /** The row with key `id` as a lookup by owner scans it: `email` is not selected. */
  function OwnedRecord(id: int, row: SubscriberRow): Subscriber {
    Subscriber(id, row.userId, [], row.tag, row.createdAt)
  }

  /** The row with key `id` joined with its owner's email. */
  function JoinedRecord(id: int, row: SubscriberRow, users: Users): Subscriber
    requires row.userId in users
  {
    Subscriber(id, row.userId, users[row.userId], row.tag, row.createdAt)
  }

  /** The rows with an id below `n` whose `userid` is `userId`, in id order. */
  function ByOwner(rows: map<int, SubscriberRow>, userId: int, n: int): seq<Subscriber>
    decreases n
  {
    if n <= 1 then []
    else
      var id := n - 1;
      ByOwner(rows, userId, id)
      + (if id in rows && rows[id].userId == userId then [OwnedRecord(id, rows[id])] else [])
  }

  /** The rows with an id below `n` whose tag matches `query` and whose owner has
      a `users` row, joined with that row, in id order. */
  function ByTag(rows: map<int, SubscriberRow>, users: Users, matches: TagMatch, query: Text, n: int): seq<Subscriber>
    decreases n
  {
    if n <= 1 then []
    else
      var id := n - 1;
      ByTag(rows, users, matches, query, id)
      + (if TagHit(rows, users, matches, query, id) then [JoinedRecord(id, rows[id], users)] else [])
  }

  /** The row `id` survives the `JOIN ... WHERE` of the lookup by tag. */
  predicate TagHit(rows: map<int, SubscriberRow>, users: Users, matches: TagMatch, query: Text, id: int) {
    id in rows && rows[id].userId in users && matches(query, rows[id].tag)
  }

  /** Records listed in strictly increasing id order: no row is listed twice. */
  predicate Increasing(s: seq<Subscriber>) {
    forall i, j :: 0 <= i < j < |s| ==> s[i].id < s[j].id
  }

  /** What the lookup by owner lists: exactly that owner's rows below `n`, without email. */
  lemma {:induction false} ByOwnerMember(rows: map<int, SubscriberRow>, userId: int, n: int, s: Subscriber)
    ensures s in ByOwner(rows, userId, n) <==>
              1 <= s.id < n && s.id in rows && rows[s.id].userId == userId && s == OwnedRecord(s.id, rows[s.id])
    decreases n
  {
    if n > 1 {
      ByOwnerMember(rows, userId, n - 1, s);
    }
  }

  lemma {:induction false} ByOwnerIncreasing(rows: map<int, SubscriberRow>, userId: int, n: int)
    ensures Increasing(ByOwner(rows, userId, n))
    decreases n
  {
    if n > 1 {
      ByOwnerIncreasing(rows, userId, n - 1);
      var before := ByOwner(rows, userId, n - 1);
      forall k | 0 <= k < |before| ensures before[k].id < n - 1 {
        ByOwnerMember(rows, userId, n - 1, before[k]);
      }
    }
  }

  /** What the lookup by tag lists: exactly the matching rows below `n` that the
      join keeps, each with its owner's email. */
  lemma {:induction false} ByTagMember(rows: map<int, SubscriberRow>, users: Users, matches: TagMatch,
                                       query: Text, n: int, s: Subscriber)
    ensures s in ByTag(rows, users, matches, query, n) <==>
              1 <= s.id < n && TagHit(rows, users, matches, query, s.id)
              && s == JoinedRecord(s.id, rows[s.id], users)
    decreases n
  {
    if n > 1 {
      ByTagMember(rows, users, matches, query, n - 1, s);
    }
  }

  lemma {:induction false} ByTagIncreasing(rows: map<int, SubscriberRow>, users: Users, matches: TagMatch,
                                           query: Text, n: int)
    ensures Increasing(ByTag(rows, users, matches, query, n))
    decreases n
  {
    if n > 1 {
      ByTagIncreasing(rows, users, matches, query, n - 1);
      var before := ByTag(rows, users, matches, query, n - 1);
      forall k | 0 <= k < |before| ensures before[k].id < n - 1 {
        ByTagMember(rows, users, matches, query, n - 1, before[k]);
      }
    }
  }

  /** `SubscriberModel`: the `subscribers` table as a map from id to row, with the
      counter its id column draws fresh ids from. */
  class SubscriberModel {
    var rows: map<int, SubscriberRow>
    var nextId: int

    /** Ids are positive and below the counter, so the counter's value is fresh. */
    ghost predicate Valid()
      reads this
    {
      && 1 <= nextId
      && forall id :: id in rows ==> 1 <= id < nextId
    }

    /** An empty table. */
    constructor ()
      ensures Valid() && rows == map[] && nextId == 1
    {
      rows := map[];
      nextId := 1;
    }

    /** `INSERT INTO subscribers (userId, tag) ... RETURNING id, created_at`: one new
        row holding the owner and the tag; only `id` and `createdAt` are written back,
        and the record's `email` is not stored. */
    method Insert(s: Subscriber, now: int, fault: Option<StoreFault>) returns (written: Subscriber, err: Option<Error>)
      requires Valid()
      modifies this
      ensures Valid()
      ensures fault.Some? ==>
                err == Some(Store(fault.value)) && written == s
                && rows == old(rows) && nextId == old(nextId)
      ensures fault.None? ==>
                && err == None
                && old(nextId) !in old(rows)
                && written == s.(id := old(nextId), createdAt := now)
                && rows == old(rows)[old(nextId) := SubscriberRow(s.userId, s.tag, now)]
                && nextId == old(nextId) + 1
    {
      if fault.Some? {
        return s, Some(Store(fault.value));
      }
      var id := nextId;
      rows := rows[id := SubscriberRow(s.userId, s.tag, now)];
      nextId := nextId + 1;
      written := s.(id := id, createdAt := now);
      err := None;
    }

    /** `SELECT id, userid, tag, created_at FROM subscribers WHERE userid = $1`, rows
        scanned in id order. No match is an empty list, not an error; `email` is
        never filled. */
    method GetAllById(userId: int, fault: Option<StoreFault>) returns (r: Result<seq<Subscriber>>)
      requires Valid()
      ensures fault.Some? ==> r == Err(Store(fault.value))
      ensures fault.None? ==> r == Ok(ByOwner(rows, userId, nextId))
      ensures r.Ok? ==> Increasing(r.value)
      ensures r.Ok? ==> forall s :: s in r.value <==>
                s.id in rows && rows[s.id].userId == userId && s == OwnedRecord(s.id, rows[s.id])
      ensures r.Ok? ==> forall k :: 0 <= k < |r.value| ==> r.value[k].email == []
    {
      if fault.Some? {
        return Err(Store(fault.value));
      }
      var found: seq<Subscriber> := [];
      var id := 1;
      while id < nextId
        invariant 1 <= id <= nextId
        invariant found == ByOwner(rows, userId, id)
      {
        if id in rows && rows[id].userId == userId {
          found := found + [OwnedRecord(id, rows[id])];
        }
        id := id + 1;
      }
      ByOwnerIncreasing(rows, userId, nextId);
      forall s | true
        ensures s in found <==> s.id in rows && rows[s.id].userId == userId && s == OwnedRecord(s.id, rows[s.id])
      {
        ByOwnerMember(rows, userId, nextId, s);
      }
      r := Ok(found);
    }

    /** `SELECT ... FROM subscribers JOIN users ON subscribers.userid = users.id WHERE
        <tag matches $1>`, rows scanned in id order: the matching subscriptions whose
        owner has a `users` row, each carrying that row's email. */
    method GetAllByTag(query: Text, users: Users, matches: TagMatch, fault: Option<StoreFault>)
      returns (r: Result<seq<Subscriber>>)
      requires Valid()
      ensures fault.Some? ==> r == Err(Store(fault.value))
      ensures fault.None? ==> r == Ok(ByTag(rows, users, matches, query, nextId))
      ensures r.Ok? ==> Increasing(r.value)
      ensures r.Ok? ==> forall s :: s in r.value <==>
                TagHit(rows, users, matches, query, s.id) && s == JoinedRecord(s.id, rows[s.id], users)
    {
      if fault.Some? {
        return Err(Store(fault.value));
      }
      var found: seq<Subscriber> := [];
      var id := 1;
      while id < nextId
        invariant 1 <= id <= nextId
        invariant found == ByTag(rows, users, matches, query, id)
      {
        if id in rows && rows[id].userId in users && matches(query, rows[id].tag) {
          found := found + [JoinedRecord(id, rows[id], users)];
        }
        id := id + 1;
      }
      ByTagIncreasing(rows, users, matches, query, nextId);
      forall s | true
        ensures s in found <==>
                  TagHit(rows, users, matches, query, s.id) && s == JoinedRecord(s.id, rows[s.id], users)
      {
        ByTagMember(rows, users, matches, query, nextId, s);
      }
      r := Ok(found);
    }

    /** `DELETE FROM subscribers WHERE id = $1`: an id below 1 is refused without a
        query, and "no row affected" is reported as `RecordNotFound`. */
    method Delete(id: int, fault: Option<StoreFault>) returns (err: Option<Error>)
      requires Valid()
      modifies this
      ensures Valid() && nextId == old(nextId)
      ensures id < 1 ==> err == Some(RecordNotFound) && rows == old(rows)
      ensures id >= 1 && fault.Some? ==> err == Some(Store(fault.value)) && rows == old(rows)
      ensures id >= 1 && fault.None? && id !in old(rows) ==> err == Some(RecordNotFound) && rows == old(rows)
      ensures id >= 1 && fault.None? && id in old(rows) ==> err == None && rows == old(rows) - {id}
    {
      if id < 1 {
        return Some(RecordNotFound);
      }
      if fault.Some? {
        return Some(Store(fault.value));
      }
      if id !in rows {
        return Some(RecordNotFound);
      }
      rows := rows - {id};
      err := None;
    }
  }

  /** An inserted subscription is found by its owner's lookup, with its tag and
      timestamp and without an email. */
  method InsertThenList(m: SubscriberModel, s: Subscriber, now: int)
    returns (written: Subscriber, listed: Result<seq<Subscriber>>)
    requires m.Valid()
    modifies m
    ensures m.Valid()
    ensures written.id >= 1 && written.id !in old(m.rows)
    ensures listed.Ok? && Subscriber(written.id, s.userId, [], s.tag, now) in listed.value
  {
    var err;
    written, err := m.Insert(s, now, None);
    listed := m.GetAllById(s.userId, None);
    assert m.rows[written.id] == SubscriberRow(s.userId, s.tag, now);
  }
}
