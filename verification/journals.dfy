/**
 The journal: events staged by mutations, and the events already dispatched
 to watches, in dispatch order. Commit flushes staged events to the
 dispatched stream in FIFO order; Unstage drops them. Fold replays an event
 stream over a row map, which is how a watcher's picture of a table is
 defined.
 */
module Journals {
  import opened Models
  import opened Tables

  datatype Journal = Journal(staged: seq<Event>, dispatched: seq<Event>)

  /** Created / Updated / Deleted: append a staged entry. */
  function Stage(j: Journal, e: Event): Journal {
    j.(staged := j.staged + [e])
  }

  /** Dispatch every staged entry, in staging order, then clear the stage. */
  function Commit(j: Journal): Journal {
    Journal([], j.dispatched + j.staged)
  }

  /** Discard every staged entry without dispatching it. */
  function Unstage(j: Journal): Journal {
    j.(staged := [])
  }

  /** The entries a watch on `kind` receives, in order. */
  function Matching(evs: seq<Event>, kind: string): (r: seq<Event>)
    ensures forall e :: e in r <==> e in evs && e.model.kind == kind
    ensures |r| <= |evs|
  {
    if |evs| == 0 then []
    else
      var last := evs[|evs| - 1];
      assert forall e :: e in evs <==> e in evs[..|evs| - 1] || e == last;
      Matching(evs[..|evs| - 1], kind) + (if last.model.kind == kind then [last] else [])
  }

  lemma {:induction false} MatchingAppend(a: seq<Event>, b: seq<Event>, kind: string)
    ensures Matching(a + b, kind) == Matching(a, kind) + Matching(b, kind)
    decreases |b|
  {
    if |b| > 0 {
      var b' := b[..|b| - 1];
      assert (a + b)[..|a + b| - 1] == a + b';
      MatchingAppend(a, b', kind);
    } else {
      assert a + b == a;
    }
  }

  /** The effect of one event on a row map: the only key it touches is its model's. */
  function Apply(rows: map<Key, Model>, e: Event): (r: map<Key, Model>)
    ensures forall k :: k != KeyOf(e.model) ==> (k in r <==> k in rows)
    ensures forall k :: k != KeyOf(e.model) && k in r ==> r[k] == rows[k]
    ensures KeyOf(e.model) in r <==> !e.Deleted?
    ensures !e.Deleted? ==> r[KeyOf(e.model)] == e.model
  {
    match e
    case Created(m) => rows[KeyOf(m) := m]
    case Updated(_, m) => rows[KeyOf(m) := m]
    case Deleted(m) => rows - {KeyOf(m)}
  }

  /** Replaying an event stream, oldest first. */
  function Fold(rows: map<Key, Model>, evs: seq<Event>): map<Key, Model> {
    if |evs| == 0 then rows else Apply(Fold(rows, evs[..|evs| - 1]), evs[|evs| - 1])
  }

  lemma {:induction false} FoldAppend(rows: map<Key, Model>, a: seq<Event>, b: seq<Event>)
    ensures Fold(rows, a + b) == Fold(Fold(rows, a), b)
    decreases |b|
  {
    if |b| > 0 {
      var b' := b[..|b| - 1];
      assert (a + b)[..|a + b| - 1] == a + b';
      assert (a + b)[|a + b| - 1] == b[|b| - 1];
      FoldAppend(rows, a, b');
    } else {
      assert a + b == a;
    }
  }

  lemma FoldSnoc(rows: map<Key, Model>, evs: seq<Event>, e: Event)
    ensures Fold(rows, evs + [e]) == Apply(Fold(rows, evs), e)
  {
    assert (evs + [e])[..|evs|] == evs;
  }

  /** One event seen through a per-kind filter. */
  lemma ApplyOfKind(rows: map<Key, Model>, e: Event, kind: string)
    ensures OfKind(Apply(rows, e), kind)
         == if e.model.kind == kind then Apply(OfKind(rows, kind), e) else OfKind(rows, kind)
  {
    var lhs := OfKind(Apply(rows, e), kind);
    var rhs := if e.model.kind == kind then Apply(OfKind(rows, kind), e) else OfKind(rows, kind);
    assert forall k :: k in lhs <==> k in rhs;
    assert forall k :: k in lhs ==> lhs[k] == rhs[k];
  }

  /**
   Replaying a stream and then looking at one kind is the same as looking at
   that kind first and replaying only the events a watch on it receives.
   */
  lemma {:induction false} FoldOfKind(rows: map<Key, Model>, evs: seq<Event>, kind: string)
    ensures OfKind(Fold(rows, evs), kind) == Fold(OfKind(rows, kind), Matching(evs, kind))
    decreases |evs|
  {
    if |evs| > 0 {
      var init := evs[..|evs| - 1];
      var last := evs[|evs| - 1];
      FoldOfKind(rows, init, kind);
      ApplyOfKind(Fold(rows, init), last, kind);
      if last.model.kind == kind {
        FoldSnoc(OfKind(rows, kind), Matching(init, kind), last);
      } else {
        assert Matching(evs, kind) == Matching(init, kind);
      }
    }
  }

  /** The Created event the watch protocol synthesises for each listed row. */
  function Replay(ms: seq<Model>): (r: seq<Event>)
    ensures |r| == |ms|
    ensures forall i :: 0 <= i < |ms| ==> r[i] == Created(ms[i])
  {
    seq(|ms|, i requires 0 <= i < |ms| => Created(ms[i]))
  }

  /**
   Replaying Created events for the rows of `rows` under `ks` rebuilds
   exactly those rows.
   */
  lemma {:induction false} FoldCreatesKeys(rows: map<Key, Model>, ks: seq<Key>)
    requires forall k :: k in rows ==> KeyOf(rows[k]) == k
    requires forall k :: k in ks ==> k in rows
    ensures Fold(map[], Replay(seq(|ks|, i requires 0 <= i < |ks| => rows[ks[i]])))
         == map k | k in ks :: rows[k]
    decreases |ks|
  {
    var ms := seq(|ks|, i requires 0 <= i < |ks| => rows[ks[i]]);
    if |ks| > 0 {
      var ks' := ks[..|ks| - 1];
      var ms' := seq(|ks'|, i requires 0 <= i < |ks'| => rows[ks'[i]]);
      assert forall k :: k in ks' ==> k in ks;
      FoldCreatesKeys(rows, ks');
      assert Replay(ms)[..|ms| - 1] == Replay(ms');
      var last := ks[|ks| - 1];
      assert Replay(ms)[|ms| - 1] == Created(rows[last]);
      assert forall k :: k in ks <==> k in ks' || k == last;
    }
  }
}
