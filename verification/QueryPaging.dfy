/** Following one result's cursors while other callers fill, expire and evict the cache. */
module QueryPaging {
  import opened Wrappers
  import opened QuerySnapshots
  import Digits

  /** A caller paging through its result; `offset` is how far it has read. */
  datatype Reader<T> = Reader(
    entries: seq<Entry<T>>,
    issued: set<string>,
    key: string,
    query: Query,
    items: seq<T>,
    offset: nat,
    collected: seq<T>,
    cursor: Option<string>)

  datatype Act<T> =
    | OtherCreates(key: string, snapshot: Snapshot<T>, now: real)
    | OtherContinues(now: real)
    | Follow(now: real, allowed: bool)

  predicate Enabled<T>(r: Reader<T>, a: Act<T>) {
    match a
    case OtherCreates(key, snapshot, _) => key !in r.issued && Sound(snapshot)
    case OtherContinues(_) => true
    case Follow(_, _) => r.cursor.Some?
  }

  function After<T>(r: Reader<T>, a: Act<T>): Reader<T>
    requires Enabled(r, a)
  {
    match a
    case OtherCreates(key, snapshot, now) =>
      r.(entries := Stored(r.entries, key, snapshot, now), issued := r.issued + {key})
    case OtherContinues(now) => r.(entries := Unexpired(r.entries, now))
    case Follow(now, allowed) =>
      var live := Unexpired(r.entries, now);
      match Continued(live, r.cursor.value, r.query, allowed)
      case Ok(page) =>
        r.(entries := live, offset := r.offset + |page.items|,
           collected := r.collected + page.items, cursor := page.nextCursor)
      case Err(_) => r.(entries := live)
  }

  /** What a caller holds right after its result was stored. */
  ghost predicate Begins<T>(r: Reader<T>) {
    && ':' !in r.key && |r.key| <= 100 && r.key in r.issued
    && 1 <= r.query.limit <= MAX_PAGE_SIZE && r.query.limit < |r.items| <= MAX_SNAPSHOT_ROWS
    && r.offset == r.query.limit && r.collected == r.items[..r.offset]
    && r.cursor == PageAt(r.items, r.key, 0, r.query.limit).nextCursor
  }

  /** Any cached entry under the caller's key is the caller's own rows and query. */
  ghost predicate Own<T>(r: Reader<T>) {
    forall e | e in r.entries ::
      e.key in r.issued && (e.key == r.key ==> e.snapshot.items == r.items && e.snapshot.query == r.query)
  }

  ghost predicate Inv<T>(r: Reader<T>) {
    && Own(r)
    && ':' !in r.key && |r.key| <= 100 && r.key in r.issued
    && 1 <= r.query.limit <= MAX_PAGE_SIZE && |r.items| <= MAX_SNAPSHOT_ROWS
    && r.offset <= |r.items| && r.collected == r.items[..r.offset]
    && (r.cursor.None? ==> r.offset == |r.items|)
    && (r.cursor.Some? ==> r.cursor.value == Cursor(r.key, r.offset) && Continues(r.offset, r.query.limit, |r.items|))
  }

  lemma NextMultiple(offset: nat, limit: nat)
    requires limit >= 1 && offset % limit == 0
    ensures (offset + limit) % limit == 0
  {
    var next := offset + limit;
    assert (offset / limit + 1 - next / limit) * limit == next % limit by {
      assert offset == (offset / limit) * limit;
      assert next == (next / limit) * limit + next % limit;
    }
    Digits.Scale(offset / limit + 1 - next / limit, limit);
  }

  /** A continuation of a retained snapshot always answers; a missing one is always an error. */
  lemma FollowAnswers<T>(r: Reader<T>, now: real, allowed: bool)
    requires Inv(r) && r.cursor.Some?
    ensures var live := Unexpired(r.entries, now);
            Continued(live, r.cursor.value, r.query, allowed)
            == if Find(live, r.key).None? then Err(CursorExpired)
               else if !allowed then Err(NoAccess)
               else Ok(PageAt(r.items, r.key, r.offset, r.query.limit))
  {
    CursorRoundTrip(r.key, r.offset);
    UnexpiredExact(r.entries, now);
    FindExact(Unexpired(r.entries, now), r.key);
  }

  lemma FollowStep<T>(r: Reader<T>, a: Act<T>)
    requires Inv(r) && Enabled(r, a) && a.Follow?
    ensures Inv(After(r, a))
  {
    UnexpiredExact(r.entries, a.now);
    FollowAnswers(r, a.now, a.allowed);
    PageAdvances(r.items, r.key, r.offset, r.query.limit);
  }

  /** A page from an accepted position extends the rows read and points to the next one. */
  lemma PageAdvances<T>(items: seq<T>, key: string, offset: nat, limit: nat)
    requires limit >= 1 && Continues(offset, limit, |items|)
    ensures var page := PageAt(items, key, offset, limit);
            var next := offset + |page.items|;
            && next <= |items| && items[..offset] + page.items == items[..next]
            && (page.nextCursor.None? ==> next == |items|)
            && (page.nextCursor.Some? ==>
                  page.nextCursor.value == Cursor(key, next) && Continues(next, limit, |items|))
  {
    NextMultiple(offset, limit);
  }

  lemma StepKeeps<T>(r: Reader<T>, a: Act<T>)
    requires Inv(r) && Enabled(r, a)
    ensures Inv(After(r, a))
  {
    match a
    case OtherCreates(key, snapshot, now) =>
      UnexpiredExact(r.entries, now);
      EvictedSuffix(Unexpired(r.entries, now), snapshot.size);
    case OtherContinues(now) => UnexpiredExact(r.entries, now);
    case Follow(_, _) => FollowStep(r, a);
  }

  predicate Runs<T>(r: Reader<T>, acts: seq<Act<T>>)
    decreases |acts|, 0
  {
    acts == [] ||
    (var n := |acts| - 1; Runs(r, acts[..n]) && Enabled(Exec(r, acts[..n]), acts[n]))
  }

  function Exec<T>(r: Reader<T>, acts: seq<Act<T>>): Reader<T>
    requires Runs(r, acts)
    decreases |acts|, 1
  {
    if acts == [] then r else var n := |acts| - 1; After(Exec(r, acts[..n]), acts[n])
  }

  /**
   Whatever other callers store and whatever expires or is evicted meanwhile, the pages read so far
   are a prefix of the original rows, and when no cursor is left they are all of them.
   */
  lemma {:induction false} PagesReadAreTheRows<T>(r: Reader<T>, acts: seq<Act<T>>)
    requires Begins(r) && Own(r) && Runs(r, acts)
    ensures var end := Exec(r, acts);
            && Inv(end) && end.items == r.items
            && end.collected == r.items[..end.offset]
            && (end.cursor.None? ==> end.collected == r.items)
  {
    if acts != [] {
      var n := |acts| - 1;
      PagesReadAreTheRows(r, acts[..n]);
      StepKeeps(Exec(r, acts[..n]), acts[n]);
    }
    assert Exec(r, acts).cursor.None? ==> r.items[..|r.items|] == r.items;
  }
}
