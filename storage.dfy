/**
 * The in-memory store of server/storage.ts. A `MemStorage` keeps two
 * insertion-ordered maps, one for feedback rows and one for accounts, each
 * keyed by an id drawn from its own counter that only ever goes up. Every
 * operation runs to completion before the next one starts, so the `async`
 * methods of the source are sequential methods here; the clock is the
 * parameter `now`, and the seed rows' random timestamps are constructor
 * parameters.
 */
module Storage {
  import opened Wrappers
  import opened Schema
  import opened JsMap
  import opened JsArray

  /** The sort key of a row: its timestamp in milliseconds. */
  function Timestamp(f: Feedback): int {
    f.timestamp
  }

  /** A JavaScript string is truthy when it is present and not empty. */
  predicate Truthy(s: Option<string>) {
    s.Some? && s.value != ""
  }

  /** `x || null` on an optional string: `undefined` and `""` are falsy and become null. */
  function OrNull(s: Option<string>): (r: Option<string>)
    ensures r.None? <==> s.None? || s.value == ""
    ensures r.Some? ==> r == s
  {
    if Truthy(s) then s else None
  }

  /** The client-supplied part of a row: the row with the server-assigned columns omitted. */
  function Payload(f: Feedback): InsertFeedback {
    InsertFeedback(f.name, f.email, f.rating, f.comment)
  }

  /** `{ ...payload, id, timestamp, ip_address, user_agent }`: a payload with the server's columns added. */
  function Stamped(p: InsertFeedback, id: int, timestamp: int, ip: Option<string>, ua: Option<string>): (f: Feedback)
    ensures Payload(f) == p
    ensures f.id == id && f.timestamp == timestamp && f.ipAddress == ip && f.userAgent == ua
  {
    Feedback(id, p.name, p.email, p.rating, p.comment, timestamp, ip, ua)
  }

  /** `{ ...existing, ...patch }`: the keys present in the patch override the row's. */
  function Merge(e: Feedback, p: FeedbackPatch): (r: Feedback)
    ensures r.id == e.id && r.timestamp == e.timestamp
    ensures r.ipAddress == e.ipAddress && r.userAgent == e.userAgent
  {
    Feedback(
      e.id,
      if p.name.Some? then p.name.value else e.name,
      if p.email.Some? then p.email else e.email,
      if p.rating.Some? then p.rating.value else e.rating,
      if p.comment.Some? then p.comment.value else e.comment,
      e.timestamp, e.ipAddress, e.userAgent)
  }

  /** Each payload column is taken from the patch exactly when the patch has it. */
  lemma MergeReplacesExactlyPatched(e: Feedback, p: FeedbackPatch)
    ensures var r := Merge(e, p);
      && (p.name.Some? ==> r.name == p.name.value) && (p.name.None? ==> r.name == e.name)
      && (p.email.Some? ==> r.email == p.email) && (p.email.None? ==> r.email == e.email)
      && (p.rating.Some? ==> r.rating == p.rating.value) && (p.rating.None? ==> r.rating == e.rating)
      && (p.comment.Some? ==> r.comment == p.comment.value) && (p.comment.None? ==> r.comment == e.comment)
  {
  }

  /** Applying a patch a second time changes nothing. */
  lemma MergeIdempotent(e: Feedback, p: FeedbackPatch)
    ensures Merge(Merge(e, p), p) == Merge(e, p)
  {
  }

  /** The empty patch leaves a row as it is. */
  lemma MergeEmpty(e: Feedback)
    ensures Merge(e, FeedbackPatch(None, None, None, None)) == e
  {
  }

  /** A patch with every payload column replaces the whole payload and keeps the server's columns. */
  lemma MergeFullPatch(e: Feedback, p: InsertFeedback)
    requires p.email.Some?
    ensures Merge(e, FeedbackPatch(Some(p.name), p.email, Some(p.rating), Some(p.comment)))
         == Stamped(p, e.id, e.timestamp, e.ipAddress, e.userAgent)
  {
  }

  /** A patch can set the email to `""` but never back to null. */
  lemma MergeCannotClearEmail(e: Feedback, p: FeedbackPatch)
    requires e.email.Some?
    ensures Merge(e, p).email.Some?
  {
  }

  /** A row within the bounds stays within them under a patch the partial schema admitted. */
  lemma MergeKeepsRecordOk(e: Feedback, p: FeedbackPatch, isEmail: string -> bool)
    requires RecordOk(e) && PatchOk(p, isEmail)
    ensures RecordOk(Merge(e, p))
  {
  }

  /** The feedback table after `updateFeedback(id, patch)`. */
  function Patched(m: OrderedMap<Feedback>, id: int, p: FeedbackPatch): (r: OrderedMap<Feedback>)
    requires m.Valid()
    ensures r.Valid() && r.keys == m.keys
    ensures forall k :: k != id ==> r.Get(k) == m.Get(k)
    ensures m.Has(id) ==> r.Get(id) == Some(Merge(m.entries[id], p))
    ensures !m.Has(id) ==> r == m
  {
    if m.Has(id) then m.Set(id, Merge(m.entries[id], p)) else m
  }

  /** Updating twice with the same patch leaves the table as updating once does. */
  lemma PatchedIdempotent(m: OrderedMap<Feedback>, id: int, p: FeedbackPatch)
    requires m.Valid()
    ensures Patched(Patched(m, id, p), id, p) == Patched(m, id, p)
  {
    if m.Has(id) {
      MergeIdempotent(m.entries[id], p);
    }
  }

  /** The three sample payloads `seedData` inserts, in order. */
  const SampleFeedbacks: seq<InsertFeedback> := [
    InsertFeedback("John Doe", Some("john@example.com"), 5, "Excellent service! Very impressed with the quality."),
    InsertFeedback("Sarah Wilson", Some("sarah@example.com"), 4, "Great experience overall. Would recommend to others."),
    InsertFeedback("Mike Johnson", Some(""), 3, "Good but could be improved in some areas.")
  ]

  const SeedAddress: string := "127.0.0.1"
  const SeedUserAgent: string := "Sample User Agent"

  /** The `i`-th seed row, stored under id `i + 1` with the given timestamp. */
  function SeedRow(i: nat, stamp: int): Feedback
    requires i < |SampleFeedbacks|
  {
    Stamped(SampleFeedbacks[i], i + 1, stamp, Some(SeedAddress), Some(SeedUserAgent))
  }

  /** Every seed row keeps the schema's bounds. */
  lemma SeedRowsOk(i: nat, stamp: int)
    requires i < |SampleFeedbacks|
    ensures RecordOk(SeedRow(i, stamp))
  {
    var p := SampleFeedbacks[i];
    assert |p.comment| <= 500 && |p.name| <= 100;
  }

  class MemStorage {
    var users: OrderedMap<User>
    var feedbacks: OrderedMap<Feedback>
    var currentUserId: int
    var currentFeedbackId: int

    /**
     * Both maps are well formed; both counters start at 1; every stored id was
     * drawn from its counter, so it lies below it, and the row stored under
     * an id carries that id.
     */
    ghost predicate Valid()
      reads this
    {
      && users.Valid() && feedbacks.Valid()
      && 1 <= currentUserId && 1 <= currentFeedbackId
      && (forall k :: k in feedbacks.entries ==> 1 <= k < currentFeedbackId && feedbacks.entries[k].id == k)
      && (forall k :: k in users.entries ==> 1 <= k < currentUserId && users.entries[k].id == k)
    }

    /** Every stored row keeps the schema's bounds. */
    ghost predicate RecordsOk()
      reads this
    {
      forall k :: k in feedbacks.entries ==> RecordOk(feedbacks.entries[k])
    }

    /** `new MemStorage()`: empty maps, both counters at 1, then the three seed rows. */
    constructor (seedStamps: seq<int>)
      requires |seedStamps| == |SampleFeedbacks|
      ensures Valid() && RecordsOk()
      ensures feedbacks.keys == [1, 2, 3] && currentFeedbackId == 4
      ensures forall i :: 0 <= i < 3 ==> feedbacks.Values()[i] == SeedRow(i, seedStamps[i])
      ensures users.keys == [] && users.entries == map[] && currentUserId == 1
    {
      users := Empty();
      feedbacks := Empty();
      currentUserId := 1;
      currentFeedbackId := 1;
      new;
      SeedData(seedStamps);
    }

    /** `seedData()`: each sample payload in turn gets the next id and the seed metadata. */
    method SeedData(stamps: seq<int>)
      requires Valid() && |stamps| == |SampleFeedbacks|
      requires feedbacks.keys == [] && feedbacks.entries == map[] && currentFeedbackId == 1
      modifies this
      ensures Valid() && RecordsOk()
      ensures users == old(users) && currentUserId == old(currentUserId)
      ensures feedbacks.keys == [1, 2, 3] && currentFeedbackId == 4
      ensures forall i :: 0 <= i < 3 ==> feedbacks.Values()[i] == SeedRow(i, stamps[i])
    {
      for i := 0 to |SampleFeedbacks|
        invariant Valid() && RecordsOk()
        invariant users == old(users) && currentUserId == old(currentUserId)
        invariant currentFeedbackId == i + 1
        invariant feedbacks.keys == seq(i, j => j + 1)
        invariant forall j :: 0 <= j < i ==> feedbacks.Values()[j] == SeedRow(j, stamps[j])
      {
        var id := currentFeedbackId;
        currentFeedbackId := currentFeedbackId + 1;
        var row := Stamped(SampleFeedbacks[i], id, stamps[i], Some(SeedAddress), Some(SeedUserAgent));
        SeedRowsOk(i, stamps[i]);
        assert id !in feedbacks.keys;
        feedbacks := feedbacks.Set(id, row);
      }
      assert seq(3, j => j + 1) == [1, 2, 3];
    }

    /** `getUser(id)` */
    method GetUser(id: int) returns (u: Option<User>)
      requires Valid()
      ensures u.Some? <==> users.Has(id)
      ensures u.Some? ==> u.value == users.entries[id] && u.value.id == id
    {
      u := users.Get(id);
    }

    /** `getUserByUsername(username)`: the first account, in insertion order, with that name. */
    method GetUserByUsername(username: string) returns (u: Option<User>)
      requires Valid()
      ensures u.None? <==> forall j :: 0 <= j < |users.Values()| ==> users.Values()[j].username != username
      ensures u.Some? ==> u.value.username == username && exists i :: (0 <= i < |users.Values()| && users.Values()[i] == u.value
        && forall j :: 0 <= j < i ==> users.Values()[j].username != username)
    {
      u := Find(users.Values(), (x: User) => x.username == username);
    }

    /** `getUserByEmail(email)`: the first account, in insertion order, with that email. */
    method GetUserByEmail(email: string) returns (u: Option<User>)
      requires Valid()
      ensures u.None? <==> forall j :: 0 <= j < |users.Values()| ==> users.Values()[j].email != email
      ensures u.Some? ==> u.value.email == email && exists i :: (0 <= i < |users.Values()| && users.Values()[i] == u.value
        && forall j :: 0 <= j < i ==> users.Values()[j].email != email)
    {
      u := Find(users.Values(), (x: User) => x.email == email);
    }

    /** `createUser(insertUser)`: the account gets the next user id and the current time. */
    method CreateUser(p: InsertUser, now: int) returns (u: User)
      requires Valid()
      modifies this
      ensures Valid()
      ensures u == User(old(currentUserId), p.username, p.email, p.password, now)
      ensures currentUserId == old(currentUserId) + 1
      ensures !old(users).Has(u.id) && forall k :: k in old(users.entries) ==> k < u.id
      ensures users == old(users).Set(u.id, u)
      ensures feedbacks == old(feedbacks) && currentFeedbackId == old(currentFeedbackId)
    {
      var id := currentUserId;
      currentUserId := currentUserId + 1;
      u := User(id, p.username, p.email, p.password, now);
      users := users.Set(id, u);
    }

    /**
     * `getFeedback()`: every stored row exactly once, newest first; rows with
     * the same timestamp keep the order in which they were inserted.
     */
    method GetFeedback() returns (list: seq<Feedback>)
      requires Valid()
      ensures SortedDesc(list, Timestamp)
      ensures multiset(list) == multiset(feedbacks.Values())
      ensures SameRuns(list, feedbacks.Values(), Timestamp)
    {
      list := SortDesc(feedbacks.Values(), Timestamp);
      SortDescStable(feedbacks.Values(), Timestamp);
    }

    /** `getFeedbackById(id)` */
    method GetFeedbackById(id: int) returns (f: Option<Feedback>)
      requires Valid()
      ensures f.Some? <==> feedbacks.Has(id)
      ensures f.Some? ==> f.value == feedbacks.entries[id] && f.value.id == id
    {
      f := feedbacks.Get(id);
    }

    /**
     * `createFeedback(payload, ipAddress, userAgent)`: the row gets the next
     * id, the current time, and the metadata with `""` or a missing value
     * stored as null. The id is larger than every id in the table, and the
     * counter moves past it, so it is never handed out again.
     */
    method CreateFeedback(p: InsertFeedback, ipAddress: Option<string>, userAgent: Option<string>, now: int)
      returns (f: Feedback)
      requires Valid()
      modifies this
      ensures Valid()
      ensures f == Stamped(p, old(currentFeedbackId), now, OrNull(ipAddress), OrNull(userAgent))
      ensures currentFeedbackId == old(currentFeedbackId) + 1
      ensures !old(feedbacks).Has(f.id) && forall k :: k in old(feedbacks.entries) ==> k < f.id
      ensures feedbacks == old(feedbacks).Set(f.id, f)
      ensures users == old(users) && currentUserId == old(currentUserId)
      ensures old(RecordsOk()) && RecordOk(f) ==> RecordsOk()
    {
      var id := currentFeedbackId;
      currentFeedbackId := currentFeedbackId + 1;
      f := Stamped(p, id, now, OrNull(ipAddress), OrNull(userAgent));
      feedbacks := feedbacks.Set(id, f);
    }

    /**
     * `updateFeedback(id, patch)`: a missing id changes nothing and reports
     * not found; otherwise the row under `id` is merged with the patch and
     * every other row is left alone.
     */
    method UpdateFeedback(id: int, p: FeedbackPatch) returns (r: Option<Feedback>)
      requires Valid()
      modifies this
      ensures Valid()
      ensures r.Some? <==> old(feedbacks).Has(id)
      ensures r.Some? ==> r.value == Merge(old(feedbacks).entries[id], p)
      ensures feedbacks == Patched(old(feedbacks), id, p)
      ensures users == old(users) && currentUserId == old(currentUserId)
      ensures currentFeedbackId == old(currentFeedbackId)
      ensures old(RecordsOk()) && (r.Some? ==> RecordOk(r.value)) ==> RecordsOk()
    {
      var existing := feedbacks.Get(id);
      if existing.None? {
        return None;
      }
      var updated := Merge(existing.value, p);
      feedbacks := feedbacks.Set(id, updated);
      r := Some(updated);
    }

    /** `deleteFeedback(id)`: whether `id` was present; it is absent afterwards and the counter stays. */
    method DeleteFeedback(id: int) returns (deleted: bool)
      requires Valid()
      modifies this
      ensures Valid()
      ensures deleted == old(feedbacks).Has(id)
      ensures feedbacks == old(feedbacks).Delete(id)
      ensures users == old(users) && currentUserId == old(currentUserId)
      ensures currentFeedbackId == old(currentFeedbackId)
      ensures old(RecordsOk()) ==> RecordsOk()
    {
      deleted := feedbacks.Has(id);
      feedbacks := feedbacks.Delete(id);
    }
  }

  /** Deleting the newest row does not free its id: the next row gets the id after it. */
  method CreateDeleteCreate(s: MemStorage, p: InsertFeedback, q: InsertFeedback, now: int, later: int)
    returns (first: Feedback, second: Feedback)
    requires s.Valid()
    modifies s
    ensures s.Valid()
    ensures second.id == first.id + 1
    ensures !s.feedbacks.Has(first.id)
    ensures s.feedbacks.Get(second.id) == Some(second)
  {
    first := s.CreateFeedback(p, None, None, now);
    var deleted := s.DeleteFeedback(first.id);
    second := s.CreateFeedback(q, None, None, later);
  }
}
