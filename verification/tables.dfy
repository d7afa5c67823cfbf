/**
 The relational backend as the client sees it through the mapper: a row per
 key, the order in which a plain List returns rows (assumed to be SQLite's
 rowid order, i.e. insertion order, kept by Update and dropped by Delete), and the label
 table. The mapper's SQL is not modelled; its operations are map and
 sequence updates.
 */
module Tables {
  import opened Models

  datatype Db = Db(rows: map<Key, Model>, order: seq<Key>, labels: set<Label>)

  predicate Distinct(s: seq<Key>) {
    forall i, j :: 0 <= i < j < |s| ==> s[i] != s[j]
  }

  /** `x` occurs in `s` at some position before an occurrence of `y`. */
  ghost predicate Before(s: seq<Key>, x: Key, y: Key) {
    exists p, q :: 0 <= p < q < |s| && s[p] == x && s[q] == y
  }

  /** Any two entries of `r` occur in `s` in the same relative order. */
  ghost predicate Follows(r: seq<Key>, s: seq<Key>) {
    forall i, j :: 0 <= i < j < |r| ==> Before(s, r[i], r[j])
  }

  /** The keys of a listing, in listing order. */
  function KeysOf(ms: seq<Model>): (r: seq<Key>)
    ensures |r| == |ms|
    ensures forall i :: 0 <= i < |ms| ==> r[i] == KeyOf(ms[i])
  {
    seq(|ms|, i requires 0 <= i < |ms| => KeyOf(ms[i]))
  }

  /** Every row is stored under its own key, and `order` lists each stored key once. */
  ghost predicate WellFormed(d: Db) {
    && (forall k :: k in d.rows ==> KeyOf(d.rows[k]) == k)
    && (forall k :: k in d.rows <==> k in d.order)
    && Distinct(d.order)
  }

  /** The rows of one kind, by key. */
  function OfKind(rows: map<Key, Model>, kind: string): (r: map<Key, Model>)
    ensures forall k :: k in r <==> k in rows && k.kind == kind
    ensures forall k :: k in r ==> r[k] == rows[k]
  {
    map k | k in rows && k.kind == kind :: rows[k]
  }

  /** A row appended by an INSERT; the caller has checked the key is free. */
  function AddRow(d: Db, m: Model): (r: Db)
    requires KeyOf(m) !in d.rows
    ensures WellFormed(d) ==> WellFormed(r)
    ensures r.labels == d.labels
    ensures KeyOf(m) in r.rows && r.rows[KeyOf(m)] == m
    ensures forall k :: k in d.rows ==> k in r.rows && r.rows[k] == d.rows[k]
    ensures |r.order| == |d.order| + 1 && r.order[|d.order|] == KeyOf(m)
    ensures r.order[..|d.order|] == d.order
  {
    d.(rows := d.rows[KeyOf(m) := m], order := d.order + [KeyOf(m)])
  }

  /** An UPDATE in place: the row keeps its position in List order. */
  function PutRow(d: Db, m: Model): (r: Db)
    requires KeyOf(m) in d.rows
    ensures WellFormed(d) ==> WellFormed(r)
    ensures r.order == d.order && r.labels == d.labels
    ensures r.rows.Keys == d.rows.Keys && r.rows[KeyOf(m)] == m
    ensures forall k :: k in d.rows && k != KeyOf(m) ==> r.rows[k] == d.rows[k]
  {
    d.(rows := d.rows[KeyOf(m) := m])
  }

  /** A DELETE by key; deleting an absent key changes nothing. */
  function RemoveRow(d: Db, k: Key): (r: Db)
    ensures WellFormed(d) ==> WellFormed(r)
    ensures k !in r.rows && r.labels == d.labels
    ensures forall k' :: k' != k ==> (k' in r.rows <==> k' in d.rows)
    ensures forall k' :: k' in r.rows ==> r.rows[k'] == d.rows[k']
    ensures forall x :: x in r.order <==> x in d.order && x != k
  {
    d.(rows := d.rows - {k}, order := Without(d.order, k))
  }

  /** `s` with every occurrence of `k` removed, order kept. */
  function Without(s: seq<Key>, k: Key): (r: seq<Key>)
    ensures forall x :: x in r <==> x in s && x != k
    ensures Distinct(s) ==> Distinct(r)
    ensures |r| <= |s|
  {
    if |s| == 0 then []
    else
      var init := Without(s[..|s| - 1], k);
      var last := s[|s| - 1];
      assert forall x :: x in s <==> x in s[..|s| - 1] || x == last;
      if last == k then init
      else
        DistinctSnoc(s, init);
        init + [last]
  }

  /** Splitting off the last key of a distinct sequence, and putting it back after a subsequence. */
  lemma DistinctSnoc(s: seq<Key>, init: seq<Key>)
    requires |s| > 0
    requires Distinct(s) ==> Distinct(init)
    requires forall x :: x in init ==> x in s[..|s| - 1]
    ensures Distinct(s) ==> Distinct(init + [s[|s| - 1]])
  {
    if Distinct(s) {
      var last := s[|s| - 1];
      var init' := s[..|s| - 1];
      assert last !in init' by {
        forall i | 0 <= i < |init'| ensures init'[i] != last {
          assert s[i] != s[|s| - 1];
        }
      }
      var r := init + [last];
      forall i, j | 0 <= i < j < |r| ensures r[i] != r[j] {
        if j < |init| {
          assert r[i] == init[i] && r[j] == init[j];
        } else {
          assert r[i] in init;
        }
      }
    }
  }

  /**
   A subsequence of all but the last key still follows the whole sequence,
   and so does that subsequence with the last key put back after it.
   */
  lemma FollowsSnoc(s: seq<Key>, init: seq<Key>)
    requires |s| > 0
    requires Follows(init, s[..|s| - 1])
    requires forall x :: x in init ==> x in s[..|s| - 1]
    ensures Follows(init, s)
    ensures Follows(init + [s[|s| - 1]], s)
  {
    var n := |s| - 1;
    var prefix := s[..n];
    forall i, j | 0 <= i < j < |init|
      ensures Before(s, init[i], init[j])
    {
      var a, b := init[i], init[j];
      var p, q :| 0 <= p < q < |prefix| && prefix[p] == a && prefix[q] == b;
      assert s[p] == init[i] && s[q] == init[j];
    }
    var r := init + [s[n]];
    forall i, j | 0 <= i < j < |r|
      ensures Before(s, r[i], r[j])
    {
      if j < |init| {
        assert r[i] == init[i] && r[j] == init[j];
      } else {
        assert r[i] == init[i] && init[i] in init;
        var p :| 0 <= p < |prefix| && prefix[p] == init[i];
        assert s[p] == r[i] && s[n] == r[j];
      }
    }
  }

  /** Deleting the key just appended gives the sequence back. */
  lemma {:induction false} WithoutAppended(s: seq<Key>, k: Key)
    requires k !in s
    ensures Without(s + [k], k) == s
  {
    assert (s + [k])[..|s|] == s;
    WithoutAbsent(s, k);
  }

  lemma {:induction false} WithoutAbsent(s: seq<Key>, k: Key)
    requires k !in s
    ensures Without(s, k) == s
  {
    if |s| > 0 {
      WithoutAbsent(s[..|s| - 1], k);
      assert s == s[..|s| - 1] + [s[|s| - 1]];
    }
  }

  /** The keys of one kind in List order. */
  function ListKeys(rows: map<Key, Model>, order: seq<Key>, kind: string): (r: seq<Key>)
    ensures forall k :: k in r <==> k in order && k in rows && k.kind == kind
    ensures Distinct(order) ==> Distinct(r)
  {
    if |order| == 0 then []
    else
      var init := ListKeys(rows, order[..|order| - 1], kind);
      var last := order[|order| - 1];
      assert forall x :: x in order <==> x in order[..|order| - 1] || x == last;
      if last in rows && last.kind == kind then
        DistinctSnoc(order, init);
        init + [last]
      else init
  }

  /** `m` is the row stored under some key of `kind`. */
  ghost predicate StoredAs(d: Db, kind: string, m: Model) {
    exists k :: k in d.rows && k.kind == kind && d.rows[k] == m
  }

  /**
   What the mapper's List returns for one kind with no predicate: every
   stored row of that kind, only those, once each, in List order.
   */
  function List(d: Db, kind: string): (r: seq<Model>)
    ensures |r| == |ListKeys(d.rows, d.order, kind)|
    ensures forall k :: k in d.rows && k in d.order && k.kind == kind ==> d.rows[k] in r
    ensures forall i :: 0 <= i < |r| ==> StoredAs(d, kind, r[i])
  {
    var ks := ListKeys(d.rows, d.order, kind);
    var r := seq(|ks|, i requires 0 <= i < |ks| => d.rows[ks[i]]);
    assert forall k :: k in d.rows && k in d.order && k.kind == kind ==> d.rows[k] in r by {
      forall k | k in d.rows && k in d.order && k.kind == kind ensures d.rows[k] in r {
        var i :| 0 <= i < |ks| && ks[i] == k;
        assert r[i] == d.rows[k];
      }
    }
    assert forall i :: 0 <= i < |r| ==> StoredAs(d, kind, r[i]) by {
      forall i | 0 <= i < |r| ensures StoredAs(d, kind, r[i]) {
        assert ks[i] in ks && r[i] == d.rows[ks[i]];
      }
    }
    r
  }

  /** Deleting a key keeps the other keys in their relative order. */
  lemma {:induction false} WithoutInOrder(s: seq<Key>, k: Key)
    ensures Follows(Without(s, k), s)
  {
    if |s| > 0 {
      WithoutInOrder(s[..|s| - 1], k);
      FollowsSnoc(s, Without(s[..|s| - 1], k));
    }
  }

  /** The listed keys keep their relative List order. */
  lemma {:induction false} ListKeysInOrder(rows: map<Key, Model>, order: seq<Key>, kind: string)
    ensures Follows(ListKeys(rows, order, kind), order)
  {
    if |order| > 0 {
      ListKeysInOrder(rows, order[..|order| - 1], kind);
      FollowsSnoc(order, ListKeys(rows, order[..|order| - 1], kind));
    }
  }

  /** On well-formed tables, List returns each row once, in List order. */
  lemma ListInOrder(d: Db, kind: string)
    requires WellFormed(d)
    ensures Distinct(KeysOf(List(d, kind)))
    ensures Follows(KeysOf(List(d, kind)), d.order)
  {
    var ks := ListKeys(d.rows, d.order, kind);
    assert KeysOf(List(d, kind)) == ks;
    ListKeysInOrder(d.rows, d.order, kind);
  }
}
