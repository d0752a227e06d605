/** Reading CloudFormation stack events: one query through an abstract client,
    keeping the events newer than a watermark, oldest first. */
module StackEvents {
  import opened Wrappers
  import StackStatus

  /** A stack event as the CloudFormation API returns it; the status reason may
      be absent. Timestamps are integers (nanoseconds), compared with `>`. */
  datatype RawEvent = RawEvent(
    timestamp: int,
    logicalResourceId: string,
    resourceStatus: string,
    resourceType: string,
    physicalResourceId: string,
    resourceStatusReason: Option<string>)

  /** The internal representation of a stack event. */
  datatype Event = Event(
    timestamp: int,
    logicalResourceId: string,
    resourceStatus: string,
    resourceType: string,
    resourceStatusReason: string,
    physicalResourceId: string)
  {
    predicate IsOk() {
      StackStatus.StatusType(resourceStatus) == StackStatus.Ok
    }

    predicate IsFailure() {
      StackStatus.StatusType(resourceStatus) == StackStatus.Fail
    }

    predicate IsProgress() {
      StackStatus.StatusType(resourceStatus) == StackStatus.Progress
    }
  }

  /** The error a failed `DescribeStackEvents` call reports. */
  datatype QueryError = QueryError(message: string)

  /** The query capability: all events of the named stack, or an error. */
  type Client = string -> Result<seq<RawEvent>, QueryError>

  /** Converts a raw event; an absent status reason becomes the empty string. */
  function New(source: RawEvent): (e: Event)
    ensures e.timestamp == source.timestamp
    ensures e.logicalResourceId == source.logicalResourceId
    ensures e.resourceStatus == source.resourceStatus
    ensures e.resourceType == source.resourceType
    ensures e.physicalResourceId == source.physicalResourceId
    ensures source.resourceStatusReason.None? ==> e.resourceStatusReason == ""
    ensures source.resourceStatusReason.Some? ==> e.resourceStatusReason == source.resourceStatusReason.value
  {
    Event(
      source.timestamp,
      source.logicalResourceId,
      source.resourceStatus,
      source.resourceType,
      if source.resourceStatusReason.None? then "" else source.resourceStatusReason.value,
      source.physicalResourceId)
  }

  /** The text of a raw event's status reason, absent read as empty. */
  function ReasonText(r: RawEvent): string {
    match r.resourceStatusReason
    case None => ""
    case Some(s) => s
  }

  /** Conversion loses nothing but the difference between an absent reason and an
      empty one: two raw events convert alike iff they agree on every field and
      on their reason text. */
  lemma NewLosesOnlyAbsentReason(a: RawEvent, b: RawEvent)
    ensures New(a) == New(b) <==>
      (a.(resourceStatusReason := None) == b.(resourceStatusReason := None)
       && ReasonText(a) == ReasonText(b))
  {
  }

  // ---------------------------------------------------------------------------
  // The specification of Read

  /** The raw events strictly after `t`, in their original order. */
  function NewerThan(raw: seq<RawEvent>, t: int): seq<RawEvent> {
    if raw == [] then []
    else (if raw[0].timestamp > t then [raw[0]] else []) + NewerThan(raw[1..], t)
  }

  function Reverse<T>(s: seq<T>): seq<T> {
    if s == [] then [] else Reverse(s[1..]) + [s[0]]
  }

  function ConvertAll(raw: seq<RawEvent>): seq<Event> {
    seq(|raw|, i requires 0 <= i < |raw| => New(raw[i]))
  }

  /** What a successful Read returns for the client's list `raw`. */
  function ReadResult(raw: seq<RawEvent>, t: int): seq<Event> {
    ConvertAll(Reverse(NewerThan(raw, t)))
  }

  lemma ConvertAllConcat(a: seq<RawEvent>, b: seq<RawEvent>)
    ensures ConvertAll(a + b) == ConvertAll(a) + ConvertAll(b)
  {
  }

  /** Read's result for `[x] + rest` extends the result for `rest` with `x`. */
  lemma ReadResultCons(x: RawEvent, rest: seq<RawEvent>, t: int)
    ensures ReadResult([x] + rest, t)
         == ReadResult(rest, t) + (if x.timestamp > t then [New(x)] else [])
  {
    assert ([x] + rest)[1..] == rest;
    var f := NewerThan(rest, t);
    if x.timestamp > t {
      assert ([x] + f)[1..] == f;
      ConvertAllConcat(Reverse(f), [x]);
    } else {
      assert [] + f == f;
    }
  }

  /** The walk over the returned list from its end to its start, keeping the
      events newer than `t`. */
  method Walk(raw: seq<RawEvent>, t: int) returns (events: seq<Event>)
    ensures events == ReadResult(raw, t)
  {
    events := [];
    var i := |raw| - 1;
    while i >= 0
      invariant -1 <= i < |raw|
      invariant events == ReadResult(raw[i + 1..], t)
    {
      ReadResultCons(raw[i], raw[i + 1..], t);
      assert raw[i..] == [raw[i]] + raw[i + 1..];
      if raw[i].timestamp > t {
        events := events + [New(raw[i])];
      }
      i := i - 1;
    }
    assert raw[0..] == raw;
  }

  /** Reads the events of `stack` whose timestamp is strictly after `t`: one query,
      then the walk over its answer. */
  method Read(client: Client, t: int, stack: string) returns (r: Result<seq<Event>, QueryError>)
    ensures client(stack).Failure? ==> r == Failure(client(stack).error)
    ensures client(stack).Success? ==> r == Success(ReadResult(client(stack).value, t))
  {
    var output := client(stack);
    if output.Failure? {
      return Failure(output.error);
    }
    var events := Walk(output.value, t);
    return Success(events);
  }

  // ---------------------------------------------------------------------------
  // Properties of Read's result

  lemma {:induction false} ReverseAt<T>(s: seq<T>, k: nat)
    requires k < |s|
    ensures |Reverse(s)| == |s| && Reverse(s)[k] == s[|s| - 1 - k]
  {
    if k < |s| - 1 {
      ReverseAt(s[1..], k);
    } else {
      ReverseLength(s[1..]);
    }
  }

  lemma {:induction false} ReverseLength<T>(s: seq<T>)
    ensures |Reverse(s)| == |s|
  {
    if s != [] {
      ReverseLength(s[1..]);
    }
  }

  /** The kept raw events are exactly the ones after `t`. */
  lemma {:induction false} NewerThanSpec(raw: seq<RawEvent>, t: int)
    ensures forall r :: r in NewerThan(raw, t) <==> r in raw && r.timestamp > t
    ensures |NewerThan(raw, t)| <= |raw|
  {
    if raw != [] {
      NewerThanSpec(raw[1..], t);
      assert raw == [raw[0]] + raw[1..];
    }
  }

  /** Filtering keeps a newest-first list newest first. */
  lemma {:induction false} NewerThanNewestFirst(raw: seq<RawEvent>, t: int)
    requires NewestFirst(raw)
    ensures NewestFirst(NewerThan(raw, t))
  {
    if raw != [] {
      NewerThanNewestFirst(raw[1..], t);
      NewerThanSpec(raw[1..], t);
      var g := NewerThan(raw[1..], t);
      if raw[0].timestamp > t {
        var f := [raw[0]] + g;
        forall j | 0 < j < |f| ensures raw[0].timestamp >= f[j].timestamp {
          assert f[j] == g[j - 1] && g[j - 1] in raw[1..];
        }
      }
    }
  }

  /** Every event Read returns is strictly after the watermark. */
  lemma ReadResultAfter(raw: seq<RawEvent>, t: int)
    ensures forall e :: e in ReadResult(raw, t) ==> e.timestamp > t
  {
    var f := NewerThan(raw, t);
    NewerThanSpec(raw, t);
    ReverseLength(f);
    forall e | e in ReadResult(raw, t) ensures e.timestamp > t {
      var k :| 0 <= k < |ReadResult(raw, t)| && ReadResult(raw, t)[k] == e;
      ReverseAt(f, k);
      assert f[|f| - 1 - k] in f;
    }
  }

  /** Read's result holds one converted event per raw event after `t`, newest
      raw event last: nothing is dropped, duplicated or invented. */
  lemma ReadResultContents(raw: seq<RawEvent>, t: int)
    ensures |ReadResult(raw, t)| == |NewerThan(raw, t)|
    ensures forall k :: 0 <= k < |ReadResult(raw, t)| ==>
      ReadResult(raw, t)[k] == New(NewerThan(raw, t)[|NewerThan(raw, t)| - 1 - k])
    ensures forall e :: e in ReadResult(raw, t) <==>
      exists r :: r in raw && r.timestamp > t && e == New(r)
  {
    var f := NewerThan(raw, t);
    NewerThanSpec(raw, t);
    ReverseLength(f);
    forall k | 0 <= k < |f| ensures ReadResult(raw, t)[k] == New(f[|f| - 1 - k]) {
      ReverseAt(f, k);
    }
    forall e ensures e in ReadResult(raw, t) <==> exists r :: r in raw && r.timestamp > t && e == New(r) {
      if e in ReadResult(raw, t) {
        var k :| 0 <= k < |f| && ReadResult(raw, t)[k] == e;
        assert f[|f| - 1 - k] in f;
      }
      if exists r :: r in raw && r.timestamp > t && e == New(r) {
        var r :| r in raw && r.timestamp > t && e == New(r);
        assert r in f;
        var m :| 0 <= m < |f| && f[m] == r;
        assert ReadResult(raw, t)[|f| - 1 - m] == e;
      }
    }
  }

  /** Newest first: what the CloudFormation API promises for its list. */
  predicate NewestFirst(raw: seq<RawEvent>) {
    forall i, j :: 0 <= i < j < |raw| ==> raw[i].timestamp >= raw[j].timestamp
  }

  /** Oldest first, ties allowed. */
  predicate Chronological(events: seq<Event>) {
    forall i, j :: 0 <= i < j < |events| ==> events[i].timestamp <= events[j].timestamp
  }

  /** Given a newest-first list, Read returns its events oldest first. */
  lemma ReadResultChronological(raw: seq<RawEvent>, t: int)
    requires NewestFirst(raw)
    ensures Chronological(ReadResult(raw, t))
  {
    var f := NewerThan(raw, t);
    NewerThanNewestFirst(raw, t);
    ReadResultContents(raw, t);
    var evs := ReadResult(raw, t);
    forall i, j | 0 <= i < j < |evs| ensures evs[i].timestamp <= evs[j].timestamp {
      assert f[|f| - 1 - j].timestamp >= f[|f| - 1 - i].timestamp;
    }
  }

  /** The unit tests' fixture: events one hour old and current, newest first. */
  function FixtureEvents(now: int): seq<RawEvent> {
    [RawEvent(now, "1", "CREATE_COMPLETE", "AWS::EC2::Instance", "1", None),
     RawEvent(now - Hour, "2", "CREATE_COMPLETE", "AWS::EC2::Instance", "2", None)]
  }

  const Minute: int := 60_000_000_000
  const Hour: int := 60 * Minute

  /** A minute-old watermark keeps only the current event; a watermark a minute
      ahead keeps nothing. */
  lemma FixtureReads(now: int)
    ensures ReadResult(FixtureEvents(now), now - Minute) == [New(FixtureEvents(now)[0])]
    ensures ReadResult(FixtureEvents(now), now + Minute) == []
  {
    var raw := FixtureEvents(now);
    assert NewerThan(raw[1..], now - Minute) == [];
    assert NewerThan(raw, now - Minute) == [raw[0]];
    assert NewerThan(raw[1..], now + Minute) == [];
    assert NewerThan(raw, now + Minute) == [];
    assert Reverse([raw[0]]) == [raw[0]] by {
      assert [raw[0]][1..] == [];
    }
  }

  /** The three status tests are mutually exclusive, and none holds exactly when
      the status is not in the table. */
  lemma StatusTestsExclusive(e: Event)
    ensures !(e.IsOk() && e.IsFailure())
    ensures !(e.IsOk() && e.IsProgress())
    ensures !(e.IsFailure() && e.IsProgress())
    ensures !e.IsOk() && !e.IsFailure() && !e.IsProgress() <==>
      e.resourceStatus !in StackStatus.StatusMap
  {
  }
}
