/** A bounded ring of callback observations, read by sequence cursor with honest gap reports. */
module TradeEvents {
  import opened Wrappers
  import Digits

  datatype Value = Missing | Flag(b: bool) | Whole(i: int) | Number(n: real) | NotFinite | Text(s: string) | Opaque

  /** The fields an event may carry; anything else in a row is dropped. */
  datatype Field =
    | OrderId | DealId | Code | OrderType | OrderStatus | Status | TrdSide | Qty | Price
    | DealtQty | DealtAvgPrice | CreateTime | UpdatedTime | TimeInForce | Session | Currency
    | Unlisted(name: string)

  datatype Environment = REAL | SIMULATE | NoEnvironment
  datatype Kind = ORDER | DEAL | NoKind

  datatype Row = Row(environment: Environment, fields: map<Field, Value>)

  datatype Event = Event(
    sequence: nat, kind: Kind, account: string, environment: Environment, data: map<Field, Value>)

  datatype Stamped = Stamped(at: real, event: Event)

  /** What the process keeps: the ring, and how many events it ever accepted. */
  datatype Ring = Ring(events: seq<Stamped>, sequence: nat, accepting: bool, reconnects: nat)

  // ------------------------------------------------------------ identifiers and scalars

  /** A positive whole number, already exact; anything lossy or zero is refused. */
  function ExactIdentifier(value: Value): (r: Option<string>)
    ensures r.Some? ==> r.value != "" && Digits.AllDigits(r.value) && Digits.IntOf(r.value) > 0
  {
    match value
    case Whole(n) => if n > 0 then Digits.TextValue(n); Some(Digits.Text(n)) else None
    case Text(text) =>
      if text != "" && Digits.AllDigits(text) && Digits.IntOf(text) > 0 then Some(text) else None
    case _ => None
  }

  function Scalar(value: Value): Value {
    match value
    case Text(text) => Text(if |text| > 256 then text[..256] else text)
    case NotFinite => Missing
    case Opaque => Missing
    case _ => value
  }

  predicate Identifier(field: Field) { field.OrderId? || field.DealId? }

  predicate Malformed(fields: map<Field, Value>, field: Field) {
    field in fields && ExactIdentifier(fields[field]).None?
  }

  function Cell(fields: map<Field, Value>, field: Field): Value
    requires field in fields && !Malformed(fields, OrderId) && !Malformed(fields, DealId)
  {
    if Identifier(field) then Text(ExactIdentifier(fields[field]).value) else Scalar(fields[field])
  }

  /** The row's payload, or nothing when it cannot be attributed or an identifier is malformed. */
  function Payload(kind: Kind, row: Row): Option<map<Field, Value>> {
    if row.environment.NoEnvironment? then None
    else if kind.DEAL? && !row.environment.REAL? then None
    else if Malformed(row.fields, OrderId) || Malformed(row.fields, DealId) then None
    else if OrderId !in row.fields || (kind.DEAL? && DealId !in row.fields) then None
    else Some(map field | field in row.fields && !field.Unlisted? :: Cell(row.fields, field))
  }

  /** An identifier is accepted exactly when it is a positive whole number, and keeps its value. */
  lemma IdentifierExact(value: Value)
    ensures ExactIdentifier(value).Some?
            <==> || (value.Whole? && value.i > 0)
                 || (value.Text? && value.s != "" && Digits.AllDigits(value.s) && Digits.IntOf(value.s) > 0)
    ensures ExactIdentifier(value).Some? ==>
              Digits.IntOf(ExactIdentifier(value).value) == if value.Whole? then value.i else Digits.IntOf(value.s)
  {
    if value.Whole? && value.i > 0 {
      Digits.TextValue(value.i);
    }
  }

  /** The rows that become events: attributed, REAL for deals, and with every identifier they need exact. */
  lemma RecordedRows(kind: Kind, row: Row)
    ensures Payload(kind, row).Some?
            <==> && row.environment in {REAL, SIMULATE} && (kind == DEAL ==> row.environment == REAL)
                 && OrderId in row.fields && ExactIdentifier(row.fields[OrderId]).Some?
                 && (kind == DEAL ==> DealId in row.fields)
                 && (DealId in row.fields ==> ExactIdentifier(row.fields[DealId]).Some?)
  {
  }

  /** What an event carries of its row: the listed fields, identifiers exactly, long texts cut, no opaque value. */
  lemma PayloadCarries(kind: Kind, row: Row, field: Field)
    requires Payload(kind, row).Some?
    ensures var data := Payload(kind, row).value;
            && (field in data <==> field in row.fields && !field.Unlisted?)
            && (field in data ==>
                  var given, kept := row.fields[field], data[field];
                  && !kept.NotFinite? && !kept.Opaque?
                  && (field in {OrderId, DealId} ==>
                        kept.Text? && ExactIdentifier(given) == Some(kept.s))
                  && (field !in {OrderId, DealId} && given.Text? ==>
                        kept.Text? && kept.s <= given.s && (|kept.s| == 256 || kept.s == given.s) && |kept.s| <= 256)
                  && (field !in {OrderId, DealId} && (given.Flag? || given.Whole? || given.Number?) ==> kept == given)
                  && (field !in {OrderId, DealId} && (given.NotFinite? || given.Opaque?) ==> kept == Missing))
  {
  }

  // ------------------------------------------------------------ the ring as a value

  function Expire(events: seq<Stamped>, now: real, retention: real): (r: seq<Stamped>)
    ensures |r| <= |events| && r == events[|events| - |r|..]
  {
    if events != [] && now - events[0].at >= retention then Expire(events[1..], now, retention) else events
  }

  /** Expiry forgets an event exactly when it and every older one have reached their age. */
  lemma {:induction false} ExpiredExactly(events: seq<Stamped>, now: real, retention: real, i: nat)
    requires i < |events|
    ensures i < |events| - |Expire(events, now, retention)|
            <==> forall j | 0 <= j <= i :: now - events[j].at >= retention
  {
    if now - events[0].at >= retention {
      if i > 0 {
        ExpiredExactly(events[1..], now, retention, i - 1);
        forall j | 0 < j <= i
          ensures events[j] == events[1..][j - 1]
        {
        }
        if forall j | 0 <= j <= i - 1 :: now - events[1..][j].at >= retention {
          forall j | 0 <= j <= i
            ensures now - events[j].at >= retention
          {
            assert j > 0 ==> events[j] == events[1..][j - 1];
          }
        } else {
          var j :| 0 <= j <= i - 1 && now - events[1..][j].at < retention;
          assert events[j + 1] == events[1..][j];
        }
      }
    }
  }

  /** A full ring drops its oldest event. */
  function Push(events: seq<Stamped>, e: Stamped, capacity: nat): seq<Stamped>
    requires capacity >= 1
  {
    if |events| < capacity then events + [e] else (events + [e])[|events| + 1 - capacity..]
  }

  function Record(r: Ring, now: real, retention: real, capacity: nat,
                  kind: Kind, account: string, environment: Environment, data: map<Field, Value>): Ring
    requires capacity >= 1
  {
    var e := Event(r.sequence + 1, kind, account, environment, data);
    r.(events := Push(Expire(r.events, now, retention), Stamped(now, e), capacity), sequence := r.sequence + 1)
  }

  /** A new event is kept, and costs the oldest one its place only when the ring is full. */
  lemma PushExact(events: seq<Stamped>, e: Stamped, capacity: nat)
    requires capacity >= 1 && |events| <= capacity
    ensures Push(events, e, capacity) == (if |events| < capacity then events else events[1..]) + [e]
  {
  }

  /** So an event younger than the retention is only ever lost to a ring full of such. */
  lemma YoungStays(events: seq<Stamped>, now: real, retention: real, i: nat)
    requires i < |events| && now - events[i].at < retention
    ensures |events| - |Expire(events, now, retention)| <= i
  {
    ExpiredExactly(events, now, retention, i);
  }

  /** One callback: its rows in order, each with its own reading of the clock. */
  function Appended(r: Ring, retention: real, capacity: nat, kind: Kind, account: string,
                    rows: seq<Row>, times: seq<real>): Ring
    requires capacity >= 1 && |rows| == |times|
  {
    if rows == [] then r
    else
      var n := |rows| - 1;
      Accepted(Appended(r, retention, capacity, kind, account, rows[..n], times[..n]),
               times[n], retention, capacity, kind, account, rows[n])
  }

  /** One row is recorded unless the buffer is closed or the row cannot be attributed. */
  function Accepted(r: Ring, now: real, retention: real, capacity: nat, kind: Kind, account: string, row: Row): Ring
    requires capacity >= 1
  {
    if !r.accepting then r
    else match Payload(kind, row)
      case None => r
      case Some(data) => Record(r, now, retention, capacity, kind, account, row.environment, data)
  }

  // ------------------------------------------------------------ reading

  datatype Page = Page(
    events: seq<Event>, nextSequence: nat, hasMore: bool,
    oldest: nat, latest: nat, retentionGap: bool, restartGap: bool, reconnects: nat)

  predicate Matches(e: Event, environment: Environment, account: string) {
    e.environment == environment && e.account == account
  }

  function Selected(events: seq<Stamped>, after: nat, environment: Environment, account: string): seq<Event> {
    if events == [] then []
    else
      var n := |events| - 1;
      var e := events[n].event;
      Selected(events[..n], after, environment, account)
      + (if e.sequence > after && Matches(e, environment, account) then [e] else [])
  }

  class TradeEventBuffer {
    const epoch: string
    const capacity: nat
    const retention: real
    var events: seq<Stamped>
    var sequence: nat
    var accepting: bool
    var reconnects: nat

    ghost function View(): Ring
      reads this
    {
      Ring(events, sequence, accepting, reconnects)
    }

    ghost predicate Bounded() { capacity >= 1 && retention > 0.0 }

    constructor (epoch: string, capacity: nat, retention: real)
      requires capacity >= 1 && retention > 0.0
      ensures Bounded() && View() == Ring([], 0, true, 0)
      ensures this.epoch == epoch && this.capacity == capacity && this.retention == retention
    {
      this.epoch, this.capacity, this.retention := epoch, capacity, retention;
      events, sequence, accepting, reconnects := [], 0, true, 0;
    }

    method Resume()
      modifies this
      ensures View() == old(View()).(accepting := true)
    {
      accepting := true;
    }

    method Close()
      modifies this
      ensures View() == old(View()).(accepting := false, events := [])
    {
      accepting := false;
      events := [];
    }

    method MarkReconnect()
      modifies this
      ensures View() == old(View()).(reconnects := old(reconnects) + 1)
    {
      reconnects := reconnects + 1;
    }

    method ExpireOld(now: real)
      modifies this`events
      ensures View() == old(View()).(events := Expire(old(events), now, retention))
    {
      while events != [] && now - events[0].at >= retention
        invariant Expire(events, now, retention) == Expire(old(events), now, retention)
        decreases |events|
      {
        events := events[1..];
      }
    }

    method AppendRow(kind: Kind, account: string, row: Row, now: real)
      requires Bounded()
      modifies this`events, this`sequence
      ensures View() == Accepted(old(View()), now, retention, capacity, kind, account, row)
    {
      var payload := Payload(kind, row);
      if payload.None? || !accepting {
        return;
      }
      ExpireOld(now);
      sequence := sequence + 1;
      var e := Event(sequence, kind, account, row.environment, payload.value);
      events := Push(events, Stamped(now, e), capacity);
    }

    method Append(kind: Kind, account: Value, rows: seq<Row>, times: seq<real>) returns (r: Result<(), string>)
      requires Bounded() && |rows| == |times|
      modifies this`events, this`sequence
      ensures r.Ok? <==> ExactIdentifier(account).Some? && !kind.NoKind?
      ensures View() == if r.Ok?
                        then Appended(old(View()), retention, capacity, kind, ExactIdentifier(account).value,
                                      rows, times)
                        else old(View())
    {
      var id := ExactIdentifier(account);
      if id.None? {
        return Err("Callback identifiers must be positive decimal identifiers");
      }
      if kind.NoKind? {
        return Err("event_type must be ORDER or DEAL");
      }
      var i := 0;
      while i < |rows|
        invariant 0 <= i <= |rows|
        invariant View() == Appended(old(View()), retention, capacity, kind, id.value, rows[..i], times[..i])
      {
        AppendRow(kind, id.value, rows[i], times[i]);
        assert rows[..i + 1][..i] == rows[..i] && times[..i + 1][..i] == times[..i];
        i := i + 1;
      }
      assert rows[..|rows|] == rows && times[..|times|] == times;
      return Ok(());
    }

    method Select(after: nat, environment: Environment, account: string) returns (selected: seq<Event>)
      ensures selected == Selected(events, after, environment, account)
    {
      selected := [];
      var i := 0;
      while i < |events|
        invariant 0 <= i <= |events|
        invariant selected == Selected(events[..i], after, environment, account)
      {
        assert events[..i + 1][..i] == events[..i];
        var e := events[i].event;
        if e.sequence > after && Matches(e, environment, account) {
          selected := selected + [e];
        }
        i := i + 1;
      }
      assert events[..|events|] == events;
    }

    method MakePage(environment: Environment, account: string, after: nat, limit: int, restarted: bool)
      returns (page: Page)
      requires limit >= 1
      ensures page == PageOf(View(), environment, account, after, limit, restarted)
    {
      var oldest := if events != [] then events[0].event.sequence else sequence + 1;
      var selected := Select(after, environment, account);
      var hasMore := |selected| > limit;
      if hasMore { selected := selected[..limit]; }
      var next := if hasMore then selected[limit - 1].sequence else sequence;
      page := Page(selected, next, hasMore, oldest, sequence, after + 1 < oldest, restarted, reconnects);
    }

    /** An answered read is exactly the value form's page; a refused one names a wrong argument. */
    method Read(environment: Environment, account: Value, afterSequence: nat, eventEpoch: Option<string>,
                limit: int, now: real)
      returns (r: Result<Page, string>)
      modifies this`events
      ensures r.Ok? <==>
                && ExactIdentifier(account).Some? && !environment.NoEnvironment? && 1 <= limit <= 200
                && (afterSequence == 0 || eventEpoch.Some?)
                && (eventEpoch in {None, Some(epoch)} ==> afterSequence <= old(sequence))
      ensures r.Ok? ==>
                && View() == Expired(old(View()), now, retention)
                && r.value == (if eventEpoch.Some? && eventEpoch.value != epoch
                               then PageOf(View(), environment, ExactIdentifier(account).value, 0, limit, true)
                               else PageOf(View(), environment, ExactIdentifier(account).value, afterSequence,
                                           limit, false))
      ensures View() in {old(View()), Expired(old(View()), now, retention)}
    {
      var id := ExactIdentifier(account);
      if id.None? { return Err("Callback identifiers must be positive decimal identifiers"); }
      if environment.NoEnvironment? { return Err("trd_env must be REAL or SIMULATE"); }
      if !(1 <= limit <= 200) { return Err("limit must be an integer from 1 to 200"); }
      if afterSequence > 0 && eventEpoch.None? { return Err("event_epoch is required with after_sequence"); }
      ExpireOld(now);
      var restarted := eventEpoch.Some? && eventEpoch.value != epoch;
      var after := Effective(epoch, eventEpoch, afterSequence);
      if after > sequence { return Err("after_sequence is beyond this event buffer"); }
      var page := MakePage(environment, id.value, after, limit, restarted);
      return Ok(page);
    }
  }

  /** A cursor of another process counts as the beginning. */
  function Effective(epoch: string, eventEpoch: Option<string>, after: nat): nat {
    if eventEpoch.Some? && eventEpoch.value != epoch then 0 else after
  }

  function Expired(r: Ring, now: real, retention: real): Ring {
    r.(events := Expire(r.events, now, retention))
  }

  function PageOf(r: Ring, environment: Environment, account: string, after: nat, limit: int, restarted: bool): Page
    requires limit >= 1
  {
    var all := Selected(r.events, after, environment, account);
    var oldest := if r.events != [] then r.events[0].event.sequence else r.sequence + 1;
    var page := if |all| > limit then all[..limit] else all;
    Page(page, if |all| > limit then page[limit - 1].sequence else r.sequence, |all| > limit,
         oldest, r.sequence, after + 1 < oldest, restarted, r.reconnects)
  }
}
