/** Durable agent sessions: an event chronology rebuilt from an unordered store. */
module SessionChronology {
  import opened Basics
  import opened Identifiers
  import opened Serialization

  datatype Event = Event(id: string, timestamp: real, partial: bool, body: Json)

  datatype EventDoc = EventDoc(version: int, id: string, timestamp: Option<real>, payload: Event)

  datatype SessionDoc = SessionDoc(version: int, id: string, app: string, user: string, state: map<string, Json>, updated: real)

  datatype Session = Session(id: string, app: string, user: string, state: map<string, Json>, events: seq<Event>, updated: real)

  datatype Failure = NoSessionId | Refused(reason: Rejection) | UnreadableVersion

  const SESSION_SCHEMA_VERSION := 1

  function EncodeEvent(e: Event): EventDoc {
    EventDoc(SESSION_SCHEMA_VERSION, e.id, Some(e.timestamp), e)
  }

  function EncodeSession(s: Session): SessionDoc {
    SessionDoc(SESSION_SCHEMA_VERSION, s.id, s.app, s.user, s.state, s.updated)
  }

  function DecodeSession(d: SessionDoc, events: seq<Event>): Result<Session, Failure> {
    if d.version != SESSION_SCHEMA_VERSION then Err(UnreadableVersion)
    else Ok(Session(d.id, d.app, d.user, d.state, events, d.updated))
  }

  /** Decoding stops at the first document of another version. */
  function DecodeEvents(docs: seq<EventDoc>): Result<seq<Event>, Failure> {
    if docs == [] then Ok([])
    else if docs[0].version != SESSION_SCHEMA_VERSION then Err(UnreadableVersion)
    else
      match DecodeEvents(docs[1..])
      case Err(f) => Err(f)
      case Ok(es) => Ok([docs[0].payload] + es)
  }

  function SessionKey(app: string, user: string, id: string): Result<string, Failure> {
    if !Safe(app) then Err(Refused(SafeIdentifier(app).error))
    else if !Safe(user) then Err(Refused(SafeIdentifier(user).error))
    else if !Safe(id) then Err(Refused(SafeIdentifier(id).error))
    else Ok(app + "__" + user + "__" + id)
  }

  /** No two underscores in a row. */
  predicate SingleUnderscores(s: string) {
    forall i :: 0 <= i < |s| - 1 ==> s[i] != '_' || s[i + 1] != '_'
  }

  /** Where the application and user names have no double underscore, a key determines all three parts. */
  lemma SessionKeysDistinct(app: string, user: string, id: string, app': string, user': string, id': string)
    requires SessionKey(app, user, id).Ok? && SessionKey(app, user, id) == SessionKey(app', user', id')
    requires SingleUnderscores(app) && SingleUnderscores(user) && SingleUnderscores(app') && SingleUnderscores(user')
    ensures app == app' && user == user' && id == id'
  {
    assert app + "__" + user + "__" + id == app + "__" + (user + "__" + id);
    assert app' + "__" + user' + "__" + id' == app' + "__" + (user' + "__" + id');
    SafeExactly(user);
    SafeExactly(user');
    SafeExactly(id);
    SafeExactly(id');
    hide Safe;
    SplitKey(app, user + "__" + id, app', user' + "__" + id');
    SplitKey(user, id, user', id');
  }

  lemma SplitKey(a: string, x: string, b: string, y: string)
    requires SingleUnderscores(a) && SingleUnderscores(b) && a + "__" + x == b + "__" + y
    requires x != "" && x[0] != '_' && y != "" && y[0] != '_'
    ensures a == b && x == y
  {
    var s, t := a + "__" + x, b + "__" + y;
    if |a| < |b| {
      NotEarlier(a, x, b, y);
    } else if |b| < |a| {
      NotEarlier(b, y, a, x);
    }
    assert a == s[..|a|] && b == t[..|b|] && x == s[|a| + 2..] && y == t[|b| + 2..];
  }

  lemma NotEarlier(a: string, x: string, b: string, y: string)
    requires SingleUnderscores(b) && a + "__" + x == b + "__" + y && |a| < |b| && x != ""
    ensures x[0] == '_'
  {
    var s, t := a + "__" + x, b + "__" + y;
    var k := |a|;
    assert s[k] == '_' && s[k + 1] == '_' && s[k + 2] == x[0];
    forall i | 0 <= i < |b| ensures b[i] == s[i] {
      assert t[i] == b[i];
    }
    assert s[|b| + 1] == t[|b| + 1] == '_';
  }

  /** A double underscore between safe parts of a name moves the boundary: the same key, another identity. */
  lemma DoubleUnderscoreShares(a: string, b: string, other: string, id: string)
    requires Safe(a) && Safe(a + "__" + b) && Safe(other) && Safe(id)
    ensures Safe(b + "__" + other) ==> SessionKey(a + "__" + b, other, id) == SessionKey(a, b + "__" + other, id)
    ensures Safe(b + "__" + id) ==> SessionKey(other, a + "__" + b, id) == SessionKey(other, a, b + "__" + id)
    ensures SessionKey(a + "__" + b, other, id).Ok? && SessionKey(other, a + "__" + b, id).Ok? && a != a + "__" + b
  {
    hide Safe;
    assert a + "__" + (b + "__" + other) + "__" + id == a + "__" + b + "__" + other + "__" + id;
    assert other + "__" + a + "__" + (b + "__" + id) == other + "__" + (a + "__" + b) + "__" + id;
    assert |a| != |a + "__" + b|;
  }

  // ------------------------------------------------------- order

  /** `timestamp or 0.0`. */
  function Moment(d: EventDoc): real {
    if d.timestamp.Some? then d.timestamp.value else 0.0
  }

  predicate Less(a: EventDoc, b: EventDoc) {
    Moment(a) < Moment(b) || (Moment(a) == Moment(b) && TextLess(a.id, b.id))
  }

  lemma LessTrichotomy(a: EventDoc, b: EventDoc)
    ensures !(Less(a, b) && Less(b, a)) && !Less(a, a)
    ensures a.id != b.id ==> Less(a, b) || Less(b, a)
  {
    TextLessTrichotomy(a.id, b.id);
  }

  lemma LessTransitive(a: EventDoc, b: EventDoc, c: EventDoc)
    requires Less(a, b) && Less(b, c)
    ensures Less(a, c)
  {
    if Moment(a) == Moment(b) == Moment(c) {
      TextLessTransitive(a.id, b.id, c.id);
    }
  }

  ghost predicate Ordered(docs: seq<EventDoc>) {
    forall i, j :: 0 <= i < j < |docs| ==> Less(docs[i], docs[j])
  }

  function Insert(d: EventDoc, docs: seq<EventDoc>): seq<EventDoc> {
    if docs == [] || !Less(docs[0], d) then [d] + docs else [docs[0]] + Insert(d, docs[1..])
  }

  /** The stable sort by (timestamp, id). */
  function Sort(docs: seq<EventDoc>): seq<EventDoc> {
    if docs == [] then [] else Insert(docs[0], Sort(docs[1..]))
  }

  predicate DistinctIds(docs: seq<EventDoc>) {
    forall i, j :: 0 <= i < j < |docs| ==> docs[i].id != docs[j].id
  }

  lemma {:induction false} InsertAdds(d: EventDoc, docs: seq<EventDoc>)
    ensures forall x :: x in Insert(d, docs) <==> x == d || x in docs
  {
    if docs != [] && Less(docs[0], d) {
      InsertAdds(d, docs[1..]);
      assert docs == [docs[0]] + docs[1..];
    }
  }

  lemma {:induction false} InsertOrdered(d: EventDoc, docs: seq<EventDoc>)
    requires Ordered(docs) && forall x :: x in docs ==> x.id != d.id
    ensures Ordered(Insert(d, docs))
  {
    hide Less;
    if docs != [] {
      LessTrichotomy(docs[0], d);
      if Less(docs[0], d) {
        var r := Insert(d, docs[1..]);
        InsertOrdered(d, docs[1..]);
        InsertAdds(d, docs[1..]);
        forall i | 0 <= i < |r| ensures Less(docs[0], r[i]) {
          assert r[i] == d || r[i] in docs[1..];
        }
      } else {
        forall i | 0 < i < |docs| ensures Less(d, docs[i]) {
          LessTransitive(d, docs[0], docs[i]);
        }
      }
    }
  }

  lemma {:induction false} SortOrders(docs: seq<EventDoc>)
    requires DistinctIds(docs)
    ensures Ordered(Sort(docs)) && forall x :: x in Sort(docs) <==> x in docs
  {
    if docs != [] {
      SortOrders(docs[1..]);
      assert docs == [docs[0]] + docs[1..];
      InsertAdds(docs[0], Sort(docs[1..]));
      InsertOrdered(docs[0], Sort(docs[1..]));
    }
  }

  /** Only one arrangement of given documents is in order. */
  lemma {:induction false} OrderedIsUnique(a: seq<EventDoc>, b: seq<EventDoc>)
    requires Ordered(a) && Ordered(b)
    requires forall x :: x in a <==> x in b
    ensures a == b
  {
    assert a != [] ==> a[0] in b;
    assert b != [] ==> b[0] in a;
    if a != [] {
      SameFirst(a, b);
      forall x ensures x in a[1..] <==> x in b[1..] {
        RestWithoutFirst(a, x);
        RestWithoutFirst(b, x);
      }
      OrderedIsUnique(a[1..], b[1..]);
      assert a == [a[0]] + a[1..] && b == [b[0]] + b[1..];
    }
  }

  lemma SameFirst(a: seq<EventDoc>, b: seq<EventDoc>)
    requires Ordered(a) && Ordered(b) && a != [] && b != []
    requires a[0] in b && b[0] in a
    ensures a[0] == b[0]
  {
    LessTrichotomy(a[0], b[0]);
  }

  lemma RestWithoutFirst(a: seq<EventDoc>, x: EventDoc)
    requires Ordered(a) && a != []
    ensures x in a[1..] <==> x in a && x != a[0]
  {
    LessTrichotomy(a[0], a[0]);
    if x in a && x != a[0] {
      var i :| 0 <= i < |a| && a[i] == x;
      assert a[1..][i - 1] == x;
    }
  }

  // ------------------------------------------------------- rebuilding

  /** `docs` lists the documents of a collection keyed by event id, each once, in whatever order. */
  ghost predicate Streams(docs: seq<EventDoc>, stored: map<string, EventDoc>) {
    && DistinctIds(docs)
    && (forall d :: d in docs ==> d.id in stored && stored[d.id] == d)
    && (forall id :: id in stored ==> stored[id] in docs)
  }

  /** Every document lies under its own id, as `AppendEvent` puts it there. */
  predicate Keyed(stored: map<string, EventDoc>) {
    forall id :: id in stored ==> stored[id].id == id
  }

  function EventsOf(docs: seq<EventDoc>): Result<seq<Event>, Failure> {
    DecodeEvents(Sort(docs))
  }

  /** The chronology does not depend on the order the store streams in: it is the one arrangement of the
      stored documents ordered by timestamp and id. */
  lemma RebuiltIsUnique(a: seq<EventDoc>, b: seq<EventDoc>, stored: map<string, EventDoc>)
    requires Streams(a, stored) && Streams(b, stored)
    ensures Ordered(Sort(a)) && Streams(Sort(a), stored)
    ensures Sort(a) == Sort(b) && EventsOf(a) == EventsOf(b)
    ensures forall c :: Ordered(c) && Streams(c, stored) ==> c == Sort(a)
  {
    SortStreams(a, stored);
    SortStreams(b, stored);
    SameElements(Sort(a), Sort(b), stored);
    OrderedIsUnique(Sort(a), Sort(b));
    forall c | Ordered(c) && Streams(c, stored) ensures c == Sort(a) {
      SameElements(c, Sort(a), stored);
      OrderedIsUnique(c, Sort(a));
    }
  }

  /** The order the chronology has: by timestamp, a missing one counting as 0, and by the first character in which the
      ids differ where timestamps are equal. */
  lemma ChronologyExactly(docs: seq<EventDoc>, stored: map<string, EventDoc>, i: nat, j: nat)
    requires Streams(docs, stored) && i < j < |Sort(docs)|
    ensures var a, b := Sort(docs)[i], Sort(docs)[j];
            var earlier := if a.timestamp == None then 0.0 else a.timestamp.value;
            var later := if b.timestamp == None then 0.0 else b.timestamp.value;
            earlier < later || (earlier == later && exists k: nat :: LowerAt(a.id, b.id, k))
  {
    SortStreams(docs, stored);
    TextLessExactly(Sort(docs)[i].id, Sort(docs)[j].id);
    assert Less(Sort(docs)[i], Sort(docs)[j]);
  }

  lemma SortStreams(a: seq<EventDoc>, stored: map<string, EventDoc>)
    requires Streams(a, stored)
    ensures Ordered(Sort(a)) && Streams(Sort(a), stored)
  {
    SortOrders(a);
    var s := Sort(a);
    forall i, j | 0 <= i < j < |s| ensures s[i].id != s[j].id {
      if s[i].id == s[j].id {
        assert s[i] in a && s[j] in a;
        LessTrichotomy(s[i], s[j]);
      }
    }
  }

  lemma SameElements(a: seq<EventDoc>, b: seq<EventDoc>, stored: map<string, EventDoc>)
    requires Streams(a, stored) && Streams(b, stored)
    ensures forall d :: d in a <==> d in b
  {
  }

  // ------------------------------------------------------- windows

  datatype Window = Window(after: Option<real>, recent: Option<int>)

  function Since(events: seq<Event>, after: real): seq<Event> {
    if events == [] then []
    else (if events[0].timestamp >= after then [events[0]] else []) + Since(events[1..], after)
  }

  /** `events[-recent:]` when `recent` is truthy; a negative number drops that many from the front. */
  function Recent(events: seq<Event>, recent: Option<int>): seq<Event> {
    if recent.None? || recent.value == 0 then events
    else if recent.value > 0 then (if recent.value >= |events| then events else events[|events| - recent.value..])
    else if -recent.value >= |events| then [] else events[-recent.value..]
  }

  function Select(events: seq<Event>, w: Window): seq<Event> {
    Recent(if w.after.Some? then Since(events, w.after.value) else events, w.recent)
  }

  ghost predicate Chronological(events: seq<Event>) {
    forall i, j :: 0 <= i < j < |events| ==> events[i].timestamp <= events[j].timestamp
  }

  predicate Suffix(a: seq<Event>, b: seq<Event>) {
    |a| <= |b| && a == b[|b| - |a|..]
  }

  lemma {:induction false} AllSince(events: seq<Event>, after: real)
    requires forall i :: 0 <= i < |events| ==> events[i].timestamp >= after
    ensures Since(events, after) == events
  {
    if events != [] {
      AllSince(events[1..], after);
    }
  }

  lemma {:induction false} SinceIsSuffix(events: seq<Event>, after: real)
    requires Chronological(events)
    ensures Suffix(Since(events, after), events)
    ensures forall i :: 0 <= i < |events| ==> (events[i].timestamp >= after <==> i >= |events| - |Since(events, after)|)
  {
    if events != [] && events[0].timestamp < after {
      var rest := events[1..];
      SinceIsSuffix(rest, after);
      forall i | 0 <= i < |events| ensures events[i].timestamp >= after <==> i >= |events| - |Since(events, after)| {
        assert i > 0 ==> events[i] == rest[i - 1];
      }
    } else {
      AllSince(events, after);
    }
  }

  /** Any window of a chronology is a suffix of it: exactly the events at or after the given moment, and of
      those the most recent, as many as were asked for and there are. */
  lemma WindowsAreSuffixes(events: seq<Event>, w: Window)
    requires Chronological(events)
    ensures var since := Select(events, w.(recent := None));
            && (forall e :: e in since <==> e in events && (w.after.Some? ==> e.timestamp >= w.after.value))
            && Suffix(since, events) && Suffix(Select(events, w), since) && Suffix(Select(events, w), events)
            && (w.recent.Some? && w.recent.value > 0 ==>
                  |Select(events, w)| == if w.recent.value < |since| then w.recent.value else |since|)
            && (w.recent == Some(0) ==> Select(events, w) == since)
            && (w.recent.Some? && w.recent.value < 0 ==>
                  |Select(events, w)| == if -w.recent.value < |since| then |since| + w.recent.value else 0)
  {
    if w.after.Some? {
      SinceIsSuffix(events, w.after.value);
    }
  }

  // ------------------------------------------------------- appending

  /** What one appended event leaves in the event collection. */
  function Put(stored: map<string, EventDoc>, e: Event): map<string, EventDoc> {
    if e.partial || !Safe(e.id) then stored else stored[e.id := EncodeEvent(e)]
  }

  function PutAll(es: seq<Event>): map<string, EventDoc> {
    if es == [] then map[] else Put(PutAll(es[..|es| - 1]), es[|es| - 1])
  }

  /** The events the session keeps, in the order they were appended. */
  function Kept(es: seq<Event>): seq<Event> {
    if es == [] then []
    else Kept(es[..|es| - 1]) + (if es[|es| - 1].partial then [] else [es[|es| - 1]])
  }

  function Encoded(es: seq<Event>): seq<EventDoc> {
    seq(|es|, i requires 0 <= i < |es| => EncodeEvent(es[i]))
  }

  predicate Appendable(es: seq<Event>) {
    && (forall i :: 0 <= i < |es| ==> Safe(es[i].id))
    && (forall i, j :: 0 <= i < j < |es| ==> es[i].id != es[j].id)
  }

  lemma NothingStored()
    ensures Streams(Encoded([]), map[])
  {
  }

  lemma {:induction false} KeptAreStored(es: seq<Event>)
    requires Appendable(Kept(es))
    ensures Streams(Encoded(Kept(es)), PutAll(es))
  {
    hide Safe, Streams, Encoded;
    if es == [] {
      NothingStored();
    } else {
      var e := es[|es| - 1];
      var before := Kept(es[..|es| - 1]);
      assert Appendable(before) by {
        assert forall i :: 0 <= i < |before| ==> Kept(es)[i] == before[i];
      }
      KeptAreStored(es[..|es| - 1]);
      if !e.partial {
        assert Kept(es) == before + [e] && Kept(es)[|before|] == e;
        AppendStreams(before, e, PutAll(es[..|es| - 1]));
      } else {
        assert Kept(es) == before;
      }
    }
  }

  lemma AppendStreams(kept: seq<Event>, e: Event, stored: map<string, EventDoc>)
    requires Streams(Encoded(kept), stored) && Appendable(kept + [e]) && !e.partial
    ensures Streams(Encoded(kept + [e]), Put(stored, e))
  {
    var docs := Encoded(kept + [e]);
    assert (kept + [e])[|kept|] == e;
    assert docs == Encoded(kept) + [EncodeEvent(e)];
    assert forall d :: d in Encoded(kept) ==> d.id != e.id by {
      forall d | d in Encoded(kept) ensures d.id != e.id {
        var i :| 0 <= i < |kept| && Encoded(kept)[i] == d;
        assert (kept + [e])[i].id != (kept + [e])[|kept|].id;
      }
    }
  }

  lemma {:induction false} DecodeEncoded(docs: seq<EventDoc>, es: seq<Event>)
    requires docs == Encoded(es)
    ensures DecodeEvents(docs) == Ok(es)
  {
    if es != [] {
      DecodeEncoded(docs[1..], es[1..]);
      assert es == [es[0]] + es[1..];
    }
  }

  lemma {:induction false} DecodesPayloads(docs: seq<EventDoc>)
    requires forall d :: d in docs ==> d.version == SESSION_SCHEMA_VERSION
    ensures var r := DecodeEvents(docs);
            r.Ok? && |r.value| == |docs| && forall i :: 0 <= i < |docs| ==> r.value[i] == docs[i].payload
  {
    if docs != [] {
      DecodesPayloads(docs[1..]);
    }
  }

  lemma {:induction false} DecodeDetermines(docs: seq<EventDoc>, es: seq<Event>)
    requires DecodeEvents(docs) == Ok(es) && forall d :: d in docs ==> d == EncodeEvent(d.payload)
    ensures docs == Encoded(es)
  {
    if docs != [] {
      var rest := DecodeEvents(docs[1..]).value;
      DecodeDetermines(docs[1..], rest);
      assert docs[0] == EncodeEvent(es[0]) && es[1..] == rest;
      assert docs == [docs[0]] + docs[1..];
    }
  }

  /** The rebuilt history is the history that was appended, partial events left out, exactly when the events
      were appended in order of timestamp and id. */
  lemma ReplaysInOrderExactly(es: seq<Event>, docs: seq<EventDoc>)
    requires Appendable(Kept(es)) && Streams(docs, PutAll(es))
    ensures EventsOf(docs) == Ok(Kept(es)) <==> Ordered(Encoded(Kept(es)))
  {
    hide Sort, DecodeEvents, Kept, PutAll, Safe;
    var kept := Encoded(Kept(es));
    KeptAreStored(es);
    RebuiltIsUnique(docs, kept, PutAll(es));
    if Ordered(kept) {
      DecodeEncoded(kept, Kept(es));
    }
    if EventsOf(docs) == Ok(Kept(es)) {
      forall d | d in Sort(docs) ensures d == EncodeEvent(d.payload) {
        assert d in kept;
      }
      DecodeDetermines(Sort(docs), Kept(es));
    }
  }

  /** In particular when the clock moved on between any two of them. */
  lemma IncreasingTimestampsReplay(es: seq<Event>, docs: seq<EventDoc>)
    requires Appendable(Kept(es)) && Streams(docs, PutAll(es))
    requires forall i, j :: 0 <= i < j < |Kept(es)| ==> Kept(es)[i].timestamp < Kept(es)[j].timestamp
    ensures EventsOf(docs) == Ok(Kept(es))
  {
    hide Kept, PutAll, Safe, EventsOf;
    ReplaysInOrderExactly(es, docs);
  }
}
