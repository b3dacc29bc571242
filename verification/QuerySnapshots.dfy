/** Immutable pages over a bounded cache of query results. */
module QuerySnapshots {
  import opened Wrappers
  import opened Digits

  const MAX_PAGE_SIZE := 200
  const MAX_SNAPSHOT_ROWS := 10_000
  const MAX_SNAPSHOT_BYTES := 4 * 1024 * 1024
  const MAX_CACHE_BYTES := 16 * 1024 * 1024
  const MAX_SNAPSHOTS := 16
  const SNAPSHOT_TTL_SECONDS := 120.0

  datatype Query = Query(limit: int, rest: string)

  datatype Snapshot<T> = Snapshot(query: Query, items: seq<T>, expires: real, size: nat)

  datatype Entry<T> = Entry(key: string, snapshot: Snapshot<T>)

  datatype Page<T> = Page(items: seq<T>, nextCursor: Option<string>, totalRows: nat)

  datatype Failure = BadLimit | SnapshotLimit | BadCursor | CursorExpired | CursorScope | NoAccess

  // ------------------------------------------------------------ cursors

  function Cursor(key: string, offset: nat): string { key + ":" + Text(offset) }

  function Parse(cursor: string): Option<(string, nat)> {
    var k := IndexOf(cursor, ':');
    if |cursor| > 128 || k == |cursor| then None
    else
      var position := cursor[k + 1..];
      if position == "" || !AllDigits(position) || |position| > 8 then None else Some((cursor[..k], IntOf(position)))
  }

  /** Printing and parsing a cursor round-trip for every offset a snapshot can have. */
  lemma CursorRoundTrip(key: string, offset: nat)
    requires ':' !in key && |key| <= 100 && offset < MAX_SNAPSHOT_ROWS
    ensures Parse(Cursor(key, offset)) == Some((key, offset))
  {
    var cursor := Cursor(key, offset);
    IndexAfter(key, ':', Text(offset));
    TextValue(offset);
    assert Pow10(4) == 10_000 by { assert Pow10(2) == 100; }
    TextWithin(offset, 4);
    assert cursor[|key| + 1..] == Text(offset) && cursor[..|key|] == key;
  }

  // ------------------------------------------------------------ pages

  function PageAt<T>(items: seq<T>, key: string, offset: nat, limit: nat): (p: Page<T>)
    requires offset <= |items|
  {
    var end := if offset + limit < |items| then offset + limit else |items|;
    Page(items[offset..end], if end < |items| then Some(Cursor(key, end)) else None, |items|)
  }

  /** The positions a continuation accepts. */
  predicate Continues(offset: nat, limit: nat, rows: nat)
    requires limit >= 1
  {
    limit <= offset < rows && offset % limit == 0
  }

  /** The pages from a position on, each where the one before it ended. */
  function PagesFrom<T>(items: seq<T>, offset: nat, limit: nat): seq<seq<T>>
    requires limit >= 1 && offset <= |items|
    decreases |items| - offset
  {
    if offset + limit < |items| then [items[offset..offset + limit]] + PagesFrom(items, offset + limit, limit)
    else [items[offset..]]
  }

  function Concat<T>(pages: seq<seq<T>>): seq<T> {
    if pages == [] then [] else pages[0] + Concat(pages[1..])
  }

  lemma {:induction false} PagesAreTheRows<T>(items: seq<T>, offset: nat, limit: nat)
    requires limit >= 1 && offset <= |items|
    ensures Concat(PagesFrom(items, offset, limit)) == items[offset..]
    decreases |items| - offset
  {
    var pages := PagesFrom(items, offset, limit);
    if offset + limit < |items| {
      PagesAreTheRows(items, offset + limit, limit);
      assert pages[1..] == PagesFrom(items, offset + limit, limit);
      assert items[offset..] == items[offset..offset + limit] + items[offset + limit..];
    } else {
      assert pages[1..] == [];
      assert items[offset..] + Concat<T>([]) == items[offset..];
    }
  }

  // ------------------------------------------------------------ the cache as a value

  function Total<T>(entries: seq<Entry<T>>): nat {
    if entries == [] then 0 else entries[0].snapshot.size + Total(entries[1..])
  }

  function Unexpired<T>(entries: seq<Entry<T>>, now: real): seq<Entry<T>> {
    if entries == [] then []
    else (if entries[0].snapshot.expires <= now then [] else [entries[0]]) + Unexpired(entries[1..], now)
  }

  /** Make room, oldest first. */
  function Evicted<T>(entries: seq<Entry<T>>, size: nat): seq<Entry<T>> {
    if entries != [] && (|entries| >= MAX_SNAPSHOTS || Total(entries) + size > MAX_CACHE_BYTES)
    then Evicted(entries[1..], size) else entries
  }

  function Find<T>(entries: seq<Entry<T>>, key: string): Option<Snapshot<T>> {
    if entries == [] then None
    else if entries[0].key == key then Some(entries[0].snapshot)
    else Find(entries[1..], key)
  }

  ghost predicate Bounded<T>(entries: seq<Entry<T>>) {
    && |entries| <= MAX_SNAPSHOTS && Total(entries) <= MAX_CACHE_BYTES
    && forall e | e in entries :: Sound(e.snapshot)
  }

  predicate Sound<T>(s: Snapshot<T>) {
    s.size <= MAX_SNAPSHOT_BYTES && |s.items| <= MAX_SNAPSHOT_ROWS
    && 1 <= s.query.limit <= MAX_PAGE_SIZE && s.query.limit < |s.items|
  }

  function Stored<T>(entries: seq<Entry<T>>, key: string, s: Snapshot<T>, now: real): seq<Entry<T>> {
    Evicted(Unexpired(entries, now), s.size) + [Entry(key, s)]
  }

  /** What a continuation answers from a cache whose expired entries are gone. */
  function Continued<T>(entries: seq<Entry<T>>, cursor: string, query: Query, allowed: bool): Result<Page<T>, Failure>
  {
    var parsed := Parse(cursor);
    if parsed.None? then Err(BadCursor)
    else
      var (key, offset) := parsed.value;
      match Find(entries, key)
      case None => Err(CursorExpired)
      case Some(s) =>
        if s.query != query then Err(CursorScope)
        else if query.limit < 1 || !Continues(offset, query.limit, |s.items|) then Err(BadCursor)
        else if !allowed then Err(NoAccess)
        else Ok(PageAt(s.items, key, offset, query.limit))
  }

  /** A page is as long as the query asks, unless the rows end first, and says how many rows there are. */
  lemma PageIsFull<T>(items: seq<T>, key: string, offset: nat, limit: nat)
    requires offset <= |items|
    ensures var page := PageAt(items, key, offset, limit);
            && page.items <= items[offset..] && page.totalRows == |items|
            && (|page.items| == limit || (|page.items| < limit && offset + |page.items| == |items|))
            && (page.nextCursor == if offset + |page.items| < |items|
                                   then Some(Cursor(key, offset + |page.items|)) else None)
  {
  }

  /**
   A cursor is answered exactly for the query its rows were stored under, at a position its
   pages end at, and for a caller who may see them; another query's cursor is refused as such.
   */
  lemma ContinuedExactly<T>(entries: seq<Entry<T>>, key: string, offset: nat, query: Query, allowed: bool)
    requires ':' !in key && |key| <= 100 && offset < MAX_SNAPSHOT_ROWS && query.limit >= 1
    ensures var r := Continued(entries, Cursor(key, offset), query, allowed);
            match Find(entries, key)
            case None => r == Err(CursorExpired)
            case Some(s) =>
              && (r == Err(CursorScope) <==> s.query != query)
              && (r.Ok? <==> s.query == query && query.limit <= offset < |s.items| && offset % query.limit == 0
                             && allowed)
              && (r.Ok? ==> r.value.items <= s.items[offset..] && r.value.totalRows == |s.items|)
              && (r == Err(NoAccess) ==> !allowed)
  {
    CursorRoundTrip(key, offset);
  }

  lemma {:induction false} TotalAppend<T>(entries: seq<Entry<T>>, last: Entry<T>)
    ensures Total(entries + [last]) == Total(entries) + last.snapshot.size
  {
    if entries != [] {
      assert (entries + [last])[1..] == entries[1..] + [last];
      TotalAppend(entries[1..], last);
    } else {
      assert entries + [last] == [last];
    }
  }

  lemma {:induction false} TotalDrop<T>(entries: seq<Entry<T>>, i: nat)
    requires i < |entries|
    ensures Total(entries[..i] + entries[i + 1..]) == Total(entries) - entries[i].snapshot.size
  {
    if i > 0 {
      TotalDrop(entries[1..], i - 1);
      assert (entries[..i] + entries[i + 1..])[1..] == entries[1..][..i - 1] + entries[1..][i..];
    } else {
      assert entries[..0] + entries[1..] == entries[1..];
    }
  }

  /** Expiry drops exactly the entries whose time has come. */
  lemma {:induction false} UnexpiredExact<T>(entries: seq<Entry<T>>, now: real)
    ensures forall e | e in Unexpired(entries, now) :: e in entries && e.snapshot.expires > now
    ensures forall e | e in entries && e.snapshot.expires > now :: e in Unexpired(entries, now)
  {
    if entries != [] {
      UnexpiredExact(entries[1..], now);
      assert entries == [entries[0]] + entries[1..];
    }
  }

  lemma {:induction false} UnexpiredSmaller<T>(entries: seq<Entry<T>>, now: real)
    ensures Total(Unexpired(entries, now)) <= Total(entries) && |Unexpired(entries, now)| <= |entries|
  {
    if entries != [] {
      UnexpiredSmaller(entries[1..], now);
      var rest := Unexpired(entries[1..], now);
      assert ([entries[0]] + rest)[1..] == rest;
      assert [] + rest == rest;
    }
  }

  lemma UnexpiredBounded<T>(entries: seq<Entry<T>>, now: real)
    requires Bounded(entries)
    ensures Bounded(Unexpired(entries, now))
  {
    UnexpiredExact(entries, now);
    UnexpiredSmaller(entries, now);
    assert forall e | e in Unexpired(entries, now) :: e in entries;
  }

  lemma {:induction false} EvictedKeeps<T>(entries: seq<Entry<T>>, size: nat)
    requires Bounded(entries) && size <= MAX_SNAPSHOT_BYTES
    ensures Bounded(Evicted(entries, size))
    ensures |Evicted(entries, size)| < MAX_SNAPSHOTS && Total(Evicted(entries, size)) + size <= MAX_CACHE_BYTES
    ensures |Evicted(entries, size)| <= |entries|
    ensures Evicted(entries, size) == entries[|entries| - |Evicted(entries, size)|..]
  {
    if entries != [] && (|entries| >= MAX_SNAPSHOTS || Total(entries) + size > MAX_CACHE_BYTES) {
      assert forall e | e in entries[1..] :: e in entries;
      EvictedKeeps(entries[1..], size);
    }
  }

  /** Eviction stops as soon as there is room: with its last victim still there, there was none. */
  lemma {:induction false} EvictedNoMore<T>(entries: seq<Entry<T>>, size: nat)
    ensures |Evicted(entries, size)| <= |entries|
    ensures |Evicted(entries, size)| < |entries| ==>
              var last := entries[|entries| - |Evicted(entries, size)| - 1..];
              |last| >= MAX_SNAPSHOTS || Total(last) + size > MAX_CACHE_BYTES
  {
    if entries != [] && (|entries| >= MAX_SNAPSHOTS || Total(entries) + size > MAX_CACHE_BYTES) {
      var kept := |Evicted(entries, size)|;
      EvictedNoMore(entries[1..], size);
      if kept == |entries| - 1 {
        assert entries[0..] == entries;
      } else {
        assert entries[|entries| - kept - 1..] == entries[1..][|entries| - 1 - kept - 1..];
      }
    }
  }

  lemma StoredKeeps<T>(entries: seq<Entry<T>>, key: string, s: Snapshot<T>, now: real)
    requires Bounded(entries) && Sound(s)
    ensures Bounded(Stored(entries, key, s, now))
    ensures |Stored(entries, key, s, now)| <= 16 && Total(Stored(entries, key, s, now)) <= 16_777_216
  {
    UnexpiredBounded(entries, now);
    var live := Unexpired(entries, now);
    EvictedKeeps(live, s.size);
    TotalAppend(Evicted(live, s.size), Entry(key, s));
  }

  lemma {:induction false} FindExact<T>(entries: seq<Entry<T>>, key: string)
    ensures Find(entries, key).None? <==> forall e | e in entries :: e.key != key
    ensures Find(entries, key).Some? ==> Entry(key, Find(entries, key).value) in entries
  {
    if entries != [] {
      FindExact(entries[1..], key);
      assert entries == [entries[0]] + entries[1..];
    }
  }

  lemma {:induction false} FindSkips<T>(entries: seq<Entry<T>>, last: Entry<T>, key: string)
    ensures Find(entries + [last], key)
            == if Find(entries, key).Some? then Find(entries, key)
               else if last.key == key then Some(last.snapshot) else None
  {
    if entries == [] {
      assert entries + [last] == [last];
    } else {
      assert (entries + [last])[1..] == entries[1..] + [last];
      FindSkips(entries[1..], last, key);
    }
  }

  /** A stored result is found under its new key, whatever had to make room for it. */
  lemma StoredIsFound<T>(entries: seq<Entry<T>>, key: string, s: Snapshot<T>, now: real)
    requires forall e | e in entries :: e.key != key
    ensures Find(Stored(entries, key, s, now), key) == Some(s)
  {
    var kept := Evicted(Unexpired(entries, now), s.size);
    EvictedSuffix(Unexpired(entries, now), s.size);
    UnexpiredExact(entries, now);
    FindExact(kept, key);
    FindSkips(kept, Entry(key, s), key);
  }

  lemma {:induction false} EvictedSuffix<T>(entries: seq<Entry<T>>, size: nat)
    ensures forall e | e in Evicted(entries, size) :: e in entries
  {
    if entries != [] && (|entries| >= MAX_SNAPSHOTS || Total(entries) + size > MAX_CACHE_BYTES) {
      EvictedSuffix(entries[1..], size);
    }
  }

  function Sum(chunks: seq<nat>): nat {
    if chunks == [] then 0 else Sum(chunks[..|chunks| - 1]) + chunks[|chunks| - 1]
  }

  lemma {:induction false} SumGrows(chunks: seq<nat>, k: nat)
    requires k <= |chunks|
    ensures Sum(chunks[..k]) <= Sum(chunks)
    decreases |chunks| - k
  {
    if k < |chunks| {
      SumGrows(chunks, k + 1);
      assert chunks[..k + 1][..k] == chunks[..k];
    } else {
      assert chunks[..k] == chunks;
    }
  }

  /** Few enough rows, and an encoding within the bound. */
  predicate Keepable<T>(items: seq<T>, chunks: seq<nat>) {
    |items| <= MAX_SNAPSHOT_ROWS && Sum(chunks) <= MAX_SNAPSHOT_BYTES
  }

  // ------------------------------------------------------------ the cache as an object

  method Sweep<T>(entries: seq<Entry<T>>, now: real) returns (kept: seq<Entry<T>>, size: nat)
    ensures kept == Unexpired(entries, now) && size == Total(kept)
  {
    kept, size := [], Total(entries);
    var rest := entries;
    while rest != []
      invariant kept + Unexpired(rest, now) == Unexpired(entries, now)
      invariant size == Total(kept) + Total(rest)
      decreases |rest|
    {
      var first := rest[0];
      if first.snapshot.expires <= now {
        size := size - first.snapshot.size;
      } else {
        TotalAppend(kept, first);
        assert kept + Unexpired(rest, now) == (kept + [first]) + Unexpired(rest[1..], now);
        kept := kept + [first];
      }
      rest := rest[1..];
    }
    assert kept + [] == kept;
  }

  class QuerySnapshots<T> {
    var entries: seq<Entry<T>>
    var bytes: nat

    ghost predicate Ready()
      reads this
    {
      Bounded(entries) && bytes == Total(entries)
    }

    constructor ()
      ensures Ready() && entries == []
    {
      entries, bytes := [], 0;
    }

    method Remove(i: nat)
      requires i < |entries| && bytes == Total(entries)
      modifies this
      ensures entries == old(entries)[..i] + old(entries)[i + 1..] && bytes == Total(entries)
    {
      TotalDrop(entries, i);
      bytes := bytes - entries[i].snapshot.size;
      entries := entries[..i] + entries[i + 1..];
    }

    method Expire(now: real)
      requires Ready()
      modifies this
      ensures Ready() && entries == Unexpired(old(entries), now)
    {
      UnexpiredBounded(entries, now);
      var kept, size := Sweep(entries, now);
      entries, bytes := kept, size;
    }

    /** The encoded size of a response, unless it is over the bound. */
    method Measure(chunks: seq<nat>) returns (size: nat, ok: bool)
      ensures ok <==> Sum(chunks) <= MAX_SNAPSHOT_BYTES
      ensures ok ==> size == Sum(chunks)
    {
      size := 0;
      var i := 0;
      while i < |chunks|
        invariant 0 <= i <= |chunks| && size == Sum(chunks[..i]) <= MAX_SNAPSHOT_BYTES
      {
        assert chunks[..i + 1][..i] == chunks[..i];
        size := size + chunks[i];
        i := i + 1;
        if size > MAX_SNAPSHOT_BYTES {
          SumGrows(chunks, i);
          return size, false;
        }
      }
      assert chunks[..|chunks|] == chunks;
      return size, true;
    }

    /** A result that fits one page is not kept; a longer one is, after expiry and eviction. */
    method Create(query: Query, items: seq<T>, chunks: seq<nat>, key: string, now: real, stored: real, allowed: bool)
      returns (r: Result<Page<T>, Failure>)
      requires Ready()
      modifies this
      ensures Ready()
      ensures r == if !(1 <= query.limit <= 200) then Err(BadLimit)
                   else if |items| > 10_000 || Sum(chunks) > 4_194_304 then Err(SnapshotLimit)
                   else if !allowed then Err(NoAccess)
                   else Ok(PageAt(items, key, 0, query.limit))
      ensures entries == if 1 <= query.limit <= MAX_PAGE_SIZE && Keepable(items, chunks) && |items| > query.limit
                         then Stored(old(entries), key,
                                     Snapshot(query, items, now + 120.0, Sum(chunks)), stored)
                         else old(entries)
    {
      if query.limit < 1 || query.limit > MAX_PAGE_SIZE {
        return Err(BadLimit);
      }
      if |items| > MAX_SNAPSHOT_ROWS {
        return Err(SnapshotLimit);
      }
      var size, ok := Measure(chunks);
      if !ok {
        return Err(SnapshotLimit);
      }
      if |items| <= query.limit {
        return if allowed then Ok(PageAt(items, key, 0, query.limit)) else Err(NoAccess);
      }
      var snapshot := Snapshot(query, items, now + SNAPSHOT_TTL_SECONDS, size);
      StoredKeeps(entries, key, snapshot, stored);
      Expire(stored);
      MakeRoom(size);
      TotalAppend(entries, Entry(key, snapshot));
      entries := entries + [Entry(key, snapshot)];
      bytes := bytes + size;
      return if allowed then Ok(PageAt(items, key, 0, query.limit)) else Err(NoAccess);
    }

    method MakeRoom(size: nat)
      requires Ready() && size <= MAX_SNAPSHOT_BYTES
      modifies this
      ensures Ready() && entries == Evicted(old(entries), size)
    {
      EvictedKeeps(entries, size);
      while entries != [] && (|entries| >= MAX_SNAPSHOTS || bytes + size > MAX_CACHE_BYTES)
        invariant bytes == Total(entries) && Evicted(entries, size) == Evicted(old(entries), size)
        decreases |entries|
      {
        ghost var before := entries;
        Remove(0);
        assert entries == before[1..];
      }
    }

    method ContinuePage(cursor: string, query: Query, now: real, allowed: bool) returns (r: Result<Page<T>, Failure>)
      requires Ready()
      modifies this
      ensures Ready() && entries in {old(entries), Unexpired(old(entries), now)}
      ensures !(1 <= query.limit <= MAX_PAGE_SIZE) ==> r == Err(BadLimit)
      ensures 1 <= query.limit <= MAX_PAGE_SIZE ==>
                r == Continued(Unexpired(old(entries), now), cursor, query, allowed)
    {
      if query.limit < 1 || query.limit > MAX_PAGE_SIZE {
        return Err(BadLimit);
      }
      var parsed := Parse(cursor);
      if parsed.None? {
        return Err(BadCursor);
      }
      var (key, offset) := parsed.value;
      Expire(now);
      var found := Find(entries, key);
      if found.None? {
        return Err(CursorExpired);
      }
      var s := found.value;
      if s.query != query {
        return Err(CursorScope);
      }
      if offset < query.limit || offset >= |s.items| || offset % query.limit != 0 {
        return Err(BadCursor);
      }
      return if allowed then Ok(PageAt(s.items, key, offset, query.limit)) else Err(NoAccess);
    }
  }
}
