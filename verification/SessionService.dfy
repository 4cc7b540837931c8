/** The durable session service: create, get and append over the shared store. */
module SessionService {
  import opened Basics
  import opened Identifiers
  import opened Serialization
  import opened SessionChronology

  /** Session documents, and under each session key its event documents. */
  datatype Store = Store(sessions: map<string, SessionDoc>, events: map<string, map<string, EventDoc>>) {
    function Under(key: string): map<string, EventDoc> { if key in events then events[key] else map[] }

    predicate Valid() { forall key :: key in events ==> Keyed(events[key]) }
  }

  /** What the framework's own `append_event` does to the session state. */
  type Apply = (map<string, Json>, Event) -> map<string, Json>

  lemma {:induction false} StreamExists(stored: map<string, EventDoc>)
    requires Keyed(stored)
    ensures exists docs :: Streams(docs, stored)
    decreases |stored|
  {
    if stored == map[] {
      assert Streams([], stored);
    } else {
      var id :| id in stored;
      var rest := stored - {id};
      assert |rest.Keys| == |stored.Keys - {id}|;
      StreamExists(rest);
      var docs :| Streams(docs, rest);
      OneMoreStreams(docs, stored, id);
    }
  }

  lemma OneMoreStreams(docs: seq<EventDoc>, stored: map<string, EventDoc>, id: string)
    requires Keyed(stored) && id in stored && Streams(docs, stored - {id})
    ensures Streams(docs + [stored[id]], stored)
  {
    var more := docs + [stored[id]];
    assert more[|docs|] == stored[id];
    forall other | other in stored ensures stored[other] in more {
      if other != id {
        assert (stored - {id})[other] in docs;
      }
    }
  }

  /** The chronology rebuilt from stored events; by `RebuiltIsUnique` any stream of them gives this one. */
  ghost function History(stored: map<string, EventDoc>): Result<seq<Event>, Failure>
    requires Keyed(stored)
  {
    StreamExists(stored);
    var docs :| Streams(docs, stored);
    EventsOf(docs)
  }

  lemma HistoryOfAnyStream(docs: seq<EventDoc>, stored: map<string, EventDoc>)
    requires Keyed(stored) && Streams(docs, stored)
    ensures History(stored) == EventsOf(docs)
  {
    StreamExists(stored);
    forall other | Streams(other, stored) ensures EventsOf(other) == EventsOf(docs) {
      RebuiltIsUnique(docs, other, stored);
    }
  }

  function Decoded(d: SessionDoc, events: Result<seq<Event>, Failure>): Result<Session, Failure> {
    match events
    case Err(f) => Err(f)
    case Ok(es) => DecodeSession(d, es)
  }

  /** Creating returns the stored session when there is one, and writes only when there is none. */
  ghost function CreateOp(store: Store, app: string, user: string, id: string, state: map<string, Json>, now: real)
    : (Store, Result<Session, Failure>)
    requires store.Valid()
  {
    if id == "" then (store, Err(NoSessionId))
    else
      match SessionKey(app, user, id)
      case Err(f) => (store, Err(f))
      case Ok(key) =>
        if key in store.sessions then (store, Decoded(store.sessions[key], History(store.Under(key))))
        else
          var s := Session(id, app, user, state, [], now);
          (store.(sessions := store.sessions[key := EncodeSession(s)]), Ok(s))
  }

  ghost function GetOp(store: Store, app: string, user: string, id: string, w: Window): Result<Option<Session>, Failure>
    requires store.Valid()
  {
    match SessionKey(app, user, id)
    case Err(f) => Err(f)
    case Ok(key) =>
      if key !in store.sessions then Ok(None)
      else
        match History(store.Under(key))
        case Err(f) => Err(f)
        case Ok(es) =>
          match DecodeSession(store.sessions[key], Select(es, w))
          case Err(f) => Err(f)
          case Ok(s) => Ok(Some(s))
  }

  /** What appending leaves in memory. A partial event leaves the session as it was. */
  function Appended(s: Session, e: Event, apply: Apply, now: real): Session {
    if e.partial then s
    else s.(state := apply(s.state, e), events := s.events + [e], updated := now)
  }

  /** The session document is written before the event id is checked: a refused id leaves the new state behind. */
  function AppendOp(store: Store, s: Session, e: Event, apply: Apply, now: real): (Store, Result<Session, Failure>) {
    var t := Appended(s, e, apply, now);
    if e.partial then (store, Ok(s))
    else
      match SessionKey(s.app, s.user, s.id)
      case Err(f) => (store, Err(f))
      case Ok(key) =>
        var saved := store.(sessions := store.sessions[key := EncodeSession(t)]);
        if !Safe(e.id) then (saved, Err(Refused(SafeIdentifier(e.id).error)))
        else (saved.(events := store.events[key := Put(store.Under(key), e)]), Ok(t))
  }

  class FirestoreSessionService {
    var sessions: map<string, SessionDoc>
    var events: map<string, map<string, EventDoc>>

    function State(): Store
      reads this
    {
      Store(sessions, events)
    }

    /** The store may hand the documents out in any order. */
    method Stream(key: string) returns (docs: seq<EventDoc>)
      requires State().Valid()
      ensures Streams(docs, State().Under(key))
    {
      var stored := State().Under(key);
      var left := stored.Keys;
      docs := [];
      while left != {}
        invariant left <= stored.Keys
        invariant DistinctIds(docs)
        invariant forall d :: d in docs ==> d.id in stored && d.id !in left && stored[d.id] == d
        invariant forall id :: id in stored && id !in left ==> stored[id] in docs
        decreases |left|
      {
        var id :| id in left;
        docs := docs + [stored[id]];
        left := left - {id};
      }
    }

    method RebuildEvents(key: string) returns (r: Result<seq<Event>, Failure>)
      requires State().Valid()
      ensures r == History(State().Under(key))
    {
      var docs := Stream(key);
      HistoryOfAnyStream(docs, State().Under(key));
      r := DecodeEvents(Sort(docs));
    }

    method CreateSession(app: string, user: string, id: string, state: map<string, Json>, now: real)
      returns (r: Result<Session, Failure>)
      requires State().Valid()
      modifies this
      ensures (State(), r) == CreateOp(old(State()), app, user, id, state, now)
    {
      if id == "" {
        return Err(NoSessionId);
      }
      var key := SessionKey(app, user, id);
      if key.Err? {
        return Err(key.error);
      }
      if key.value in sessions {
        var rebuilt := RebuildEvents(key.value);
        if rebuilt.Err? {
          return Err(rebuilt.error);
        }
        return DecodeSession(sessions[key.value], rebuilt.value);
      }
      var s := Session(id, app, user, state, [], now);
      sessions := sessions[key.value := EncodeSession(s)];
      return Ok(s);
    }

    method GetSession(app: string, user: string, id: string, w: Window) returns (r: Result<Option<Session>, Failure>)
      requires State().Valid()
      ensures r == GetOp(State(), app, user, id, w)
    {
      var key := SessionKey(app, user, id);
      if key.Err? {
        return Err(key.error);
      }
      if key.value !in sessions {
        return Ok(None);
      }
      var rebuilt := RebuildEvents(key.value);
      if rebuilt.Err? {
        return Err(rebuilt.error);
      }
      var selected := rebuilt.value;
      if w.after.Some? {
        selected := Since(selected, w.after.value);
      }
      selected := Recent(selected, w.recent);
      var s := DecodeSession(sessions[key.value], selected);
      if s.Err? {
        return Err(s.error);
      }
      return Ok(Some(s.value));
    }

    method AppendEvent(s: Session, e: Event, apply: Apply, now: real) returns (r: Result<Session, Failure>)
      modifies this
      ensures (State(), r) == AppendOp(old(State()), s, e, apply, now)
    {
      if e.partial {
        return Ok(s);
      }
      var t := s.(state := apply(s.state, e), events := s.events + [e], updated := now);
      var key := SessionKey(s.app, s.user, s.id);
      if key.Err? {
        return Err(key.error);
      }
      sessions := sessions[key.value := EncodeSession(t)];
      var id := SafeIdentifier(e.id);
      if id.Err? {
        return Err(Refused(id.error));
      }
      var under := if key.value in events then events[key.value] else map[];
      events := events[key.value := under[e.id := EncodeEvent(e)]];
      return Ok(t);
    }
  }

  /** Reading a session back through a window gives a suffix of its one chronology. */
  lemma WindowedGetIsSuffix(store: Store, app: string, user: string, id: string, key: string, w: Window)
    requires store.Valid() && SessionKey(app, user, id) == Ok(key) && key in store.sessions
    requires store.sessions[key].version == SESSION_SCHEMA_VERSION
    requires forall e :: e in store.Under(key) ==> store.Under(key)[e] == EncodeEvent(store.Under(key)[e].payload)
    ensures var h, r := History(store.Under(key)), GetOp(store, app, user, id, w);
            && h.Ok? && Chronological(h.value)
            && r.Ok? && r.value.Some? && Suffix(r.value.value.events, h.value) && r.value.value.events == Select(h.value, w)
  {
    hide SessionKey, Sort, DecodeEvents, History, Select;
    var stored := store.Under(key);
    StreamExists(stored);
    var docs :| Streams(docs, stored);
    HistoryOfAnyStream(docs, stored);
    RebuiltIsUnique(docs, docs, stored);
    var sorted := Sort(docs);
    forall d | d in sorted ensures d == EncodeEvent(d.payload) {
      assert d.id in stored;
    }
    DecodesPayloads(sorted);
    var es := History(stored).value;
    forall i, j | 0 <= i < j < |es| ensures es[i].timestamp <= es[j].timestamp {
      assert Less(sorted[i], sorted[j]) && sorted[i] in sorted && sorted[j] in sorted;
    }
    WindowsAreSuffixes(es, w);
  }

  /** Appending stores the session's new state exactly when the event is whole and the session key is safe; the event
      itself exactly when its id is safe as well. So a refused event id leaves the state of an event behind that no
      chronology holds. */
  lemma AppendStoresExactly(store: Store, s: Session, e: Event, apply: Apply, now: real, key: string)
    requires SessionKey(s.app, s.user, s.id) == Ok(key) && !e.partial
    ensures var (after, r) := AppendOp(store, s, e, apply, now);
            && key in after.sessions && after.sessions[key].state == apply(s.state, e) && after.sessions[key].updated == now
            && (Safe(e.id) ==> e.id in after.Under(key) && after.Under(key)[e.id] == EncodeEvent(e))
            && (r.Ok? <==> Safe(e.id))
            && (r.Ok? ==> r.value.events == s.events + [e] && r.value.state == apply(s.state, e) && r.value.updated == now)
            && (!Safe(e.id) ==> after.events == store.events && r.error == Refused(SafeIdentifier(e.id).error))
            && after.sessions - {key} == store.sessions - {key} && after.events - {key} == store.events - {key}
            && after.Under(key) - {e.id} == store.Under(key) - {e.id}
  {
    hide SessionKey, Safe, EncodeEvent;
    var (after, r) := AppendOp(store, s, e, apply, now);
    assert after.sessions - {key} == store.sessions - {key};
    assert after.events - {key} == store.events - {key};
    assert after.Under(key) - {e.id} == store.Under(key) - {e.id};
  }

  /** A partial event is answered and not stored. What no session stands under is `None`; what another schema version
      wrote is refused, by reading and by creating alike. */
  lemma NothingToReadExactly(store: Store, s: Session, e: Event, apply: Apply, now: real, key: string, w: Window)
    requires store.Valid() && s.id != "" && SessionKey(s.app, s.user, s.id) == Ok(key)
    ensures e.partial ==> AppendOp(store, s, e, apply, now) == (store, Ok(s))
    ensures GetOp(store, s.app, s.user, s.id, w) == Ok(None) <==> key !in store.sessions
    ensures key in store.sessions && store.sessions[key].version != 1 ==>
              && GetOp(store, s.app, s.user, s.id, w).Err?
              && CreateOp(store, s.app, s.user, s.id, s.state, now).1.Err?
              && CreateOp(store, s.app, s.user, s.id, s.state, now).0 == store
  {
    hide SessionKey, Safe, History;
  }

  /** An empty id is one such. */
  lemma RefusedEventLeavesItsState(store: Store, s: Session, e: Event, apply: Apply, now: real, key: string)
    requires SessionKey(s.app, s.user, s.id) == Ok(key) && !e.partial && e.id == ""
    ensures var (after, r) := AppendOp(store, s, e, apply, now);
            && r == Err(Refused(Empty)) && after.events == store.events
            && key in after.sessions && after.sessions[key].state == apply(s.state, e)
  {
    AppendStoresExactly(store, s, e, apply, now, key);
  }

  /** A session created where there was none is written as offered, without events, and nothing else is; reading it
      back through any window gives the same session. */
  lemma CreatedIsReadBack(store: Store, app: string, user: string, id: string, key: string,
                          state: map<string, Json>, now: real, w: Window)
    requires store.Valid() && id != "" && SessionKey(app, user, id) == Ok(key)
    requires key !in store.sessions && store.Under(key) == map[]
    ensures var (after, r) := CreateOp(store, app, user, id, state, now);
            && r.Ok? && (r.value.id, r.value.app, r.value.user) == (id, app, user)
            && r.value.state == state && r.value.events == [] && r.value.updated == now
            && after.events == store.events && after.sessions - {key} == store.sessions
            && after.Valid() && GetOp(after, app, user, id, w) == Ok(Some(r.value))
  {
    hide SessionKey;
    var (after, r) := CreateOp(store, app, user, id, state, now);
    assert Streams([], map[]);
    HistoryOfAnyStream([], map[]);
    assert after.Under(key) == map[] && Select([], w) == [];
  }

  /** Two identities under one key are one session: whoever comes second is handed the first one's, under the first
      one's names, whatever it offers. */
  lemma SharedKeyIsOneSession(store: Store, s: Session, app: string, user: string, id: string, state: map<string, Json>, now: real)
    requires store.Valid() && id != "" && SessionKey(s.app, s.user, s.id).Ok?
    requires SessionKey(app, user, id) == SessionKey(s.app, s.user, s.id)
    requires var key := SessionKey(app, user, id).value;
             key in store.sessions && store.sessions[key] == EncodeSession(s) && History(store.Under(key)) == Ok(s.events)
    ensures CreateOp(store, app, user, id, state, now) == (store, Ok(s))
    ensures GetOp(store, app, user, id, Window(None, None)) == Ok(Some(s))
  {
    hide SessionKey, History;
  }

  // ------------------------------------------------------- restarts

  /** A process drives a session through events, the clock reading `clock(k)` after the `k`-th. */
  function Drive(store: Store, s: Session, es: seq<Event>, apply: Apply, clock: nat -> real): (Store, Session) {
    if es == [] then (store, s)
    else
      var (before, t) := Drive(store, s, es[..|es| - 1], apply, clock);
      var e := es[|es| - 1];
      (AppendOp(before, t, e, apply, clock(|es|)).0, Appended(t, e, apply, clock(|es|)))
  }

  /** What driving leaves behind, when the session began with an empty event collection. */
  lemma {:induction false} DriveStores(store: Store, s: Session, key: string, es: seq<Event>, apply: Apply, clock: nat -> real)
    requires store.Valid() && SessionKey(s.app, s.user, s.id) == Ok(key)
    requires key in store.sessions && store.sessions[key] == EncodeSession(s) && store.Under(key) == map[] && s.events == []
    requires Appendable(Kept(es))
    ensures var (after, t) := Drive(store, s, es, apply, clock);
            && after.Valid() && key in after.sessions && after.sessions[key] == EncodeSession(t)
            && after.Under(key) == PutAll(es) && t.events == Kept(es)
            && (t.id, t.app, t.user) == (s.id, s.app, s.user)
  {
    hide SessionKey, Safe;
    if es != [] {
      var prior := es[..|es| - 1];
      var e := es[|es| - 1];
      assert Appendable(Kept(prior)) by {
        assert forall i :: 0 <= i < |Kept(prior)| ==> Kept(es)[i] == Kept(prior)[i];
      }
      DriveStores(store, s, key, prior, apply, clock);
      if !e.partial {
        assert Kept(es)[|Kept(prior)|] == e;
        KeyedPut(Drive(store, s, prior, apply, clock).0.Under(key), e);
      }
    }
  }

  lemma KeyedPut(stored: map<string, EventDoc>, e: Event)
    requires Keyed(stored)
    ensures Keyed(Put(stored, e))
  {
  }

  /** A process that restarts and creates the session again gets the session the first process held, whole,
      whatever state it offers itself, and writes nothing. */
  lemma RestartReturnsTheSession(store: Store, s: Session, key: string, es: seq<Event>, apply: Apply, clock: nat -> real,
                                 offered: map<string, Json>, now: real)
    requires store.Valid() && s.id != "" && SessionKey(s.app, s.user, s.id) == Ok(key)
    requires key in store.sessions && store.sessions[key] == EncodeSession(s) && store.Under(key) == map[] && s.events == []
    requires Appendable(Kept(es))
    requires forall i, j :: 0 <= i < j < |Kept(es)| ==> Kept(es)[i].timestamp < Kept(es)[j].timestamp
    ensures var (after, t) := Drive(store, s, es, apply, clock);
            after.Valid() && CreateOp(after, s.app, s.user, s.id, offered, now) == (after, Ok(t))
  {
    hide Drive, Kept, PutAll, SessionKey, History, EventsOf, Safe;
    DriveStores(store, s, key, es, apply, clock);
    var (after, t) := Drive(store, s, es, apply, clock);
    StreamExists(PutAll(es));
    var docs :| Streams(docs, PutAll(es));
    IncreasingTimestampsReplay(es, docs);
    HistoryOfAnyStream(docs, PutAll(es));
  }
}
